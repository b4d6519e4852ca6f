// Small vocabulary shared by the models: optional values, strict orders and sorted sets.

module Basics {

  datatype Option<+T> = None | Some(value: T)

  datatype Result<+T, +E> = Ok(value: T) | Err(error: E)

  /** An irreflexive, transitive and total order on a set: what `sorted(..., key=...)` needs to be deterministic. */
  ghost predicate StrictTotalOn<T>(s: set<T>, less: (T, T) -> bool) {
    && (forall x :: x in s ==> !less(x, x))
    && (forall x, y, z :: x in s && y in s && z in s && less(x, y) && less(y, z) ==> less(x, z))
    && (forall x, y :: x in s && y in s ==> less(x, y) || x == y || less(y, x))
  }

  ghost predicate SortedBy<T>(s: seq<T>, less: (T, T) -> bool) {
    forall i, j :: 0 <= i < j < |s| ==> less(s[i], s[j])
  }

  ghost predicate NoDuplicates<T>(s: seq<T>) {
    forall i, j :: 0 <= i < j < |s| ==> s[i] != s[j]
  }

  /** `p` holds exactly the elements of `q`, each of them once. */
  ghost predicate Rearranges<T(!new)>(p: seq<T>, q: seq<T>) {
    && NoDuplicates(p)
    && NoDuplicates(q)
    && (forall x :: x in p <==> x in q)
  }

  lemma {:induction false} LeastExists<T(!new)>(s: set<T>, less: (T, T) -> bool)
    requires s != {} && StrictTotalOn(s, less)
    ensures exists m :: m in s && forall x :: x in s && x != m ==> less(m, x)
  {
    var y :| y in s;
    if s == {y} {
    } else {
      LeastExists(s - {y}, less);
      var m :| m in s - {y} && forall x :: x in s - {y} && x != m ==> less(m, x);
      if less(y, m) {
        assert forall x :: x in s && x != y ==> x in s - {y};
      } else {
        assert forall x :: x in s && x != m && x != y ==> x in s - {y};
      }
    }
  }

  /** The elements of a set in increasing order. */
  function Sorted<T(==, !new)>(s: set<T>, less: (T, T) -> bool): (r: seq<T>)
    requires StrictTotalOn(s, less)
    ensures SortedBy(r, less)
    ensures NoDuplicates(r) && |r| == |s|
    ensures forall x :: x in r <==> x in s
  {
    if s == {} then []
    else
      LeastExists(s, less);
      var m :| m in s && forall x :: x in s && x != m ==> less(m, x);
      var rest := Sorted(s - {m}, less);
      assert forall x :: x in rest ==> x in s && x != m;
      [m] + rest
  }

  /** Two increasing sequences with the same elements are the same sequence. */
  lemma {:induction false} SortedIsUnique<T(!new)>(p: seq<T>, q: seq<T>, s: set<T>, less: (T, T) -> bool)
    requires StrictTotalOn(s, less) && SortedBy(p, less) && SortedBy(q, less)
    requires forall x :: x in p <==> x in q
    requires forall x :: x in p ==> x in s
    ensures p == q
  {
    assert |p| > 0 ==> p[0] in p;
    assert |q| > 0 ==> q[0] in q;
    if p == [] {
    } else {
      assert p[0] in q && q[0] in p;
      assert p[0] == q[0];
      forall x ensures x in p[1..] <==> x in q[1..] {
        if x in p[1..] { assert x in q && x in s && less(p[0], x); }
        if x in q[1..] { assert x in p && x in s && less(q[0], x); }
      }
      SortedIsUnique(p[1..], q[1..], s, less);
    }
  }

  /** A sequence without repetitions drawn from a finite set is no longer than the set is large. */
  lemma {:induction false} DistinctFits<T(!new)>(s: seq<T>, bound: set<T>)
    requires NoDuplicates(s)
    requires forall x :: x in s ==> x in bound
    ensures |s| <= |bound|
    ensures |s| == |bound| ==> forall x :: x in bound ==> x in s
  {
    if s == [] {
    } else {
      var rest := s[..|s| - 1];
      var last := s[|s| - 1];
      forall x | x in rest ensures x in bound - {last} { }
      DistinctFits(rest, bound - {last});
      forall x | |s| == |bound| && x in bound ensures x in s {
        if x != last { assert x in rest; }
      }
    }
  }

  /** Rearrangements have the same length. */
  lemma SameLength<T(!new)>(p: seq<T>, q: seq<T>)
    requires Rearranges(p, q)
    ensures |p| == |q|
  {
    var elements := set x | x in p;
    assert elements == set x | x in q;
    DistinctFits(p, elements);
    DistinctFits(q, elements);
    SetOfDistinct(p);
    SetOfDistinct(q);
  }

  lemma {:induction false} SetOfDistinct<T(!new)>(s: seq<T>)
    requires NoDuplicates(s)
    ensures |set x | x in s| == |s|
  {
    if s == [] {
    } else {
      var rest := s[..|s| - 1];
      SetOfDistinct(rest);
      assert (set x | x in s) == (set x | x in rest) + {s[|s| - 1]};
    }
  }

  const SPACES: set<char> := {' ', '\t', '\n', '\r'}

  /** Nothing is left when surrounding spaces are stripped. */
  predicate Blank(s: string) {
    forall i :: 0 <= i < |s| ==> s[i] in SPACES
  }
}
