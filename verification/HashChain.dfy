// Hash-chained sequences, whatever their records hold: reading one, growing one, and what its last hash pins.

module HashChain {
  import opened Basics

  type Digest = nat

  datatype Record<B> = Record(body: B, hash: Digest)

  /** How a record's body is numbered, linked and hashed. */
  datatype Links<!B> = Links(number: B -> nat, previous: B -> Option<Digest>, hash: B -> Digest)

  ghost predicate Injective<B(!new)>(f: B -> Digest) {
    forall a, b :: f(a) == f(b) ==> a == b
  }

  /** Number, link to the record before, and the record's own hash. */
  predicate LinksTo<B>(links: Links<B>, r: Record<B>, i: nat, previous: Option<Digest>) {
    && links.number(r.body) == i + 1
    && links.previous(r.body) == previous
    && r.hash == links.hash(r.body)
  }

  function HashBefore<B>(rows: seq<Record<B>>, i: nat): Option<Digest>
    requires i <= |rows|
  {
    if i == 0 then None else Some(rows[i - 1].hash)
  }

  predicate LinkAt<B>(links: Links<B>, rows: seq<Record<B>>, i: nat) {
    i < |rows| && LinksTo(links, rows[i], i, HashBefore(rows, i))
  }

  predicate Chained<B>(links: Links<B>, rows: seq<Record<B>>) {
    forall i :: 0 <= i < |rows| ==> LinkAt(links, rows, i)
  }

  predicate Holds<B>(belongs: B -> bool, r: Record<B>) {
    belongs(r.body)
  }

  predicate AllHold<B>(belongs: B -> bool, rows: seq<Record<B>>) {
    forall i :: 0 <= i < |rows| ==> Holds(belongs, rows[i])
  }

  /** Reads a segment record by record, each against the hash of the one before. */
  method ReadSegment<B>(links: Links<B>, belongs: B -> bool, lines: seq<Record<B>>) returns (ok: bool)
    ensures ok <==> Chained(links, lines) && AllHold(belongs, lines)
  {
    var previous: Option<Digest> := None;
    var n := 0;
    while n < |lines|
      invariant n <= |lines| && previous == HashBefore(lines, n)
      invariant forall i :: 0 <= i < n ==> LinkAt(links, lines, i)
      invariant forall i :: 0 <= i < n ==> Holds(belongs, lines[i])
    {
      assert LinkAt(links, lines, n) <==> LinksTo(links, lines[n], n, previous);
      if !LinksTo(links, lines[n], n, previous) || !Holds(belongs, lines[n]) { return false; }
      previous := Some(lines[n].hash);
      n := n + 1;
    }
    return true;
  }

  lemma ShorterIsChained<B>(links: Links<B>, rows: seq<Record<B>>, n: nat)
    requires Chained(links, rows) && n <= |rows|
    ensures Chained(links, rows[..n])
  {
    forall i | 0 <= i < n ensures LinkAt(links, rows[..n], i) {
      assert LinkAt(links, rows, i);
    }
  }

  /** Two chains that end in the same hash are the same, record by record. */
  lemma {:induction false} LastHashPinsChain<B(!new)>(links: Links<B>, a: seq<Record<B>>, b: seq<Record<B>>)
    requires Injective(links.hash) && Chained(links, a) && Chained(links, b)
    requires a != [] && b != [] && a[|a| - 1].hash == b[|b| - 1].hash
    ensures a == b
    decreases |a|
  {
    var m, n := |a| - 1, |b| - 1;
    assert LinkAt(links, a, m) && LinkAt(links, b, n);
    assert a[m] == b[n] && m == n;
    if m > 0 {
      ShorterIsChained(links, a, m);
      ShorterIsChained(links, b, n);
      LastHashPinsChain(links, a[..m], b[..n]);
    }
    assert a == a[..m] + [a[m]] && b == b[..n] + [b[n]];
  }

  lemma LongerIsChained<B>(links: Links<B>, rows: seq<Record<B>>, b: B)
    requires Chained(links, rows) && links.number(b) == |rows| + 1 && links.previous(b) == HashBefore(rows, |rows|)
    ensures Chained(links, rows + [Record(b, links.hash(b))])
  {
    var more := rows + [Record(b, links.hash(b))];
    forall i | 0 <= i < |more| ensures LinkAt(links, more, i) {
      if i < |rows| { assert LinkAt(links, rows, i); }
    }
  }
}
