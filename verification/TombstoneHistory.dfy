// The tombstones of one blob must form one history: the walk from the root to the last child.

module TombstoneHistory {
  import opened Basics
  import opened HashChain

  datatype Receipt = Receipt(sha: Digest, previous: Option<Digest>)

  predicate NamesPrevious(order: seq<Receipt>, i: nat) {
    0 < i < |order| && order[i].previous == Some(order[i - 1].sha)
  }

  /** One chain: the first receipt has no predecessor, and every other one names the one before it. */
  ghost predicate Line(order: seq<Receipt>) {
    && order != []
    && order[0].previous == None
    && forall i :: 0 < i < |order| ==> NamesPrevious(order, i)
  }

  ghost predicate LineOf(order: seq<Receipt>, receipts: seq<Receipt>) {
    Line(order) && Rearranges(order, receipts)
  }

  ghost predicate OneHistory(receipts: seq<Receipt>) {
    exists order :: LineOf(order, receipts)
  }

  /** No two receipts share a digest. */
  ghost predicate DistinctDigests(receipts: seq<Receipt>) {
    forall i, j :: 0 <= i < j < |receipts| ==> receipts[i].sha != receipts[j].sha
  }

  /** The receipts that name this predecessor, in order. */
  function Naming(receipts: seq<Receipt>, previous: Option<Digest>): (r: seq<Receipt>)
    ensures forall x :: x in r <==> x in receipts && x.previous == previous
    ensures |r| <= |receipts|
  {
    if receipts == [] then []
    else
      var front, last := Naming(receipts[..|receipts| - 1], previous), receipts[|receipts| - 1];
      assert receipts == receipts[..|receipts| - 1] + [last];
      if last.previous == previous then front + [last] else front
  }

  lemma {:induction false} NamingIsNew(receipts: seq<Receipt>, previous: Option<Digest>)
    requires NoDuplicates(receipts)
    ensures NoDuplicates(Naming(receipts, previous))
  {
    if receipts != [] {
      var front, last := receipts[..|receipts| - 1], receipts[|receipts| - 1];
      NamingIsNew(front, previous);
      forall x | x in Naming(front, previous) ensures x != last {
        var i :| 0 <= i < |front| && front[i] == x;
      }
    }
  }

  /** In a line, a receipt has the next one as its only child. */
  lemma OnlyNext(order: seq<Receipt>, receipts: seq<Receipt>, k: nat, x: Receipt)
    requires LineOf(order, receipts) && DistinctDigests(receipts) && k < |order|
    requires x in receipts && x.previous == Some(order[k].sha)
    ensures k + 1 < |order| && x == order[k + 1]
  {
    var j :| 0 <= j < |order| && order[j] == x;
    RootIsFirst(order, j);
    assert NamesPrevious(order, j);
    assert order[j - 1] in receipts && order[k] in receipts;
    var a :| 0 <= a < |receipts| && receipts[a] == order[j - 1];
    var b :| 0 <= b < |receipts| && receipts[b] == order[k];
    assert a == b;
    assert order[j - 1] == order[k];
  }

  lemma RootIsFirst(order: seq<Receipt>, j: nat)
    requires Line(order) && j < |order|
    ensures order[j].previous == None <==> j == 0
  {
    assert 0 < j ==> NamesPrevious(order, j);
  }

  lemma OnlyRoot(order: seq<Receipt>, receipts: seq<Receipt>)
    requires LineOf(order, receipts)
    ensures Naming(receipts, None) == [order[0]]
  {
    var roots := Naming(receipts, None);
    NamingIsNew(receipts, None);
    forall x | x in roots ensures x == order[0] {
      var j :| 0 <= j < |order| && order[j] == x;
      RootIsFirst(order, j);
    }
    assert order[0] in roots;
    OnlyOne(roots, order[0]);
  }

  lemma OnlyOne(s: seq<Receipt>, x: Receipt)
    requires NoDuplicates(s) && x in s && forall y :: y in s ==> y == x
    ensures s == [x]
  {
    DistinctFits(s, {x});
    assert s[0] in s;
  }

  lemma Children(order: seq<Receipt>, receipts: seq<Receipt>, k: nat)
    requires LineOf(order, receipts) && DistinctDigests(receipts) && k < |order|
    ensures Naming(receipts, Some(order[k].sha)) == if k + 1 < |order| then [order[k + 1]] else []
  {
    var children := Naming(receipts, Some(order[k].sha));
    NamingIsNew(receipts, Some(order[k].sha));
    forall x | x in children ensures k + 1 < |order| && x == order[k + 1] { OnlyNext(order, receipts, k, x); }
    assert children != [] ==> children[0] in children;
    if k + 1 < |order| {
      assert NamesPrevious(order, k + 1);
      assert order[k + 1] in receipts && order[k + 1] in children;
      OnlyOne(children, order[k + 1]);
    }
  }

  /** So far the walk agrees with every way to arrange the receipts as one history. */
  ghost predicate OnTrack(ordered: seq<Receipt>, receipts: seq<Receipt>) {
    forall order :: LineOf(order, receipts) ==> ordered <= order
  }

  lemma NextOnTrack(ordered: seq<Receipt>, receipts: seq<Receipt>, order: seq<Receipt>)
    requires OnTrack(ordered, receipts) && ordered != [] && DistinctDigests(receipts) && LineOf(order, receipts)
    ensures var children := Naming(receipts, Some(ordered[|ordered| - 1].sha));
            if children == [] then |order| == |ordered|
            else |children| == 1 && children[0] !in ordered && ordered + children <= order
  {
    var n := |ordered|;
    assert order[n - 1] == ordered[n - 1];
    Children(order, receipts, n - 1);
    if n < |order| {
      assert order[..n] == ordered;
      assert order[n] !in order[..n];
      assert order[..n + 1] == ordered + [order[n]];
    }
  }

  lemma LineGrows(ordered: seq<Receipt>, x: Receipt)
    requires Line(ordered) && x.previous == Some(ordered[|ordered| - 1].sha)
    ensures Line(ordered + [x])
  {
    var longer := ordered + [x];
    forall i | 0 < i < |longer| ensures NamesPrevious(longer, i) {
      assert i < |ordered| ==> NamesPrevious(ordered, i);
    }
  }

  /** Walks from the only root to the last child; accepts exactly the receipts that form one history. */
  method Walk(receipts: seq<Receipt>) returns (ok: bool)
    requires DistinctDigests(receipts)
    ensures ok <==> OneHistory(receipts)
  {
    var roots := Naming(receipts, None);
    forall order | LineOf(order, receipts) ensures roots == [order[0]] { OnlyRoot(order, receipts); }
    if |roots| != 1 { return false; }
    assert roots[0] in roots;
    var ordered := roots;
    while true
      invariant Line(ordered) && NoDuplicates(ordered) && OnTrack(ordered, receipts)
      invariant forall x :: x in ordered ==> x in receipts
      decreases |receipts| - |ordered|
    {
      var children := Naming(receipts, Some(ordered[|ordered| - 1].sha));
      forall order | LineOf(order, receipts)
        ensures if children == [] then |order| == |ordered|
                else |children| == 1 && children[0] !in ordered && ordered + children <= order
      {
        NextOnTrack(ordered, receipts, order);
      }
      if children == [] {
        Complete(ordered, receipts);
        return |ordered| == |receipts|;
      }
      if |children| != 1 || children[0] in ordered { return false; }
      assert children[0] in children && children == [children[0]];
      LineGrows(ordered, children[0]);
      Grows(ordered + children, receipts);
      ordered := ordered + children;
    }
  }

  lemma Grows(ordered: seq<Receipt>, receipts: seq<Receipt>)
    requires NoDuplicates(ordered) && forall x :: x in ordered ==> x in receipts
    ensures |ordered| <= |receipts|
    ensures |ordered| == |receipts| && NoDuplicates(receipts) ==> Rearranges(ordered, receipts)
  {
    var all := set x | x in receipts;
    DistinctFits(ordered, all);
    FewAtMost(receipts);
    if |ordered| == |receipts| && NoDuplicates(receipts) {
      forall x ensures x in receipts ==> x in ordered { assert x in receipts ==> x in all; }
    }
  }

  lemma {:induction false} FewAtMost(s: seq<Receipt>)
    ensures |set x | x in s| <= |s|
  {
    if s != [] {
      var rest := s[..|s| - 1];
      FewAtMost(rest);
      assert (set x | x in s) == (set x | x in rest) + {s[|s| - 1]};
    }
  }

  lemma Complete(ordered: seq<Receipt>, receipts: seq<Receipt>)
    requires DistinctDigests(receipts) && Line(ordered) && NoDuplicates(ordered)
    requires forall x :: x in ordered ==> x in receipts
    requires forall order :: LineOf(order, receipts) ==> |ordered| == |order|
    ensures |ordered| == |receipts| <==> OneHistory(receipts)
  {
    assert NoDuplicates(receipts);
    Grows(ordered, receipts);
    if |ordered| == |receipts| { assert LineOf(ordered, receipts); }
    forall order | LineOf(order, receipts) ensures |ordered| == |receipts| { SameLength(order, receipts); }
  }
}
