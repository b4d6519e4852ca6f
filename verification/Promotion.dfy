// Promoting a staged tree into the source tree: all or nothing, whatever step fails.

module Promotion {
  import opened Basics

  type Path = string
  type Bytes = seq<bv8>
  type Tree = map<Path, Bytes>

  function At(tree: Tree, p: Path): Option<Bytes> {
    if p in tree then Some(tree[p]) else None
  }

  /** The paths that differ between two manifests. */
  function Changed(before: Tree, after: Tree): (r: set<Path>)
    ensures forall p :: p in r <==> At(before, p) != At(after, p)
  {
    set p | p in before.Keys + after.Keys && At(before, p) != At(after, p)
  }

  /** How one file operation goes; a copy that fails may leave part of a file behind. */
  datatype Fate = Done | Failed(partial: Option<Bytes>)

  datatype Outcome =
    | Applied
    | SourceChanged
    | Reported(rolledBack: bool)   // the promotion report
    | Escaped                      // an error before the promotion, or while cleaning up after it

  const MANIFEST: Path := "manifest.json"

  /** The tree a complete rollback leaves: the promotion's own manifest lies where the backup of
      a repository file of that name would be. */
  function Restored(before: Tree, applied: seq<Path>, receipt: Bytes): (r: Tree)
    ensures r == before <==> !(MANIFEST in applied && At(before, MANIFEST) != Some(receipt))
  {
    if MANIFEST in applied then before[MANIFEST := receipt] else before
  }

  lemma SameTree(a: Tree, b: Tree)
    requires forall p :: At(a, p) == At(b, p)
    ensures a == b
  {
    forall p ensures p in a <==> p in b { assert At(a, p) == At(b, p); }
    forall p | p in a ensures a[p] == b[p] { assert At(a, p) == At(b, p); }
  }

  class Promoter {
    const stage: Tree
    const receipt: Bytes           // the promotion manifest written into the backup
    const fate: nat -> Fate        // what happens to each operation, in turn

    var files: Tree                // the source tree
    var temps: map<nat, Bytes>     // temporary files next to it
    var backup: Tree
    var applied: seq<Path>
    var made: seq<nat>             // every temporary name that was handed out
    var errors: seq<Path>          // paths whose rollback failed
    var strays: nat                // temporaries whose removal failed
    var clock: nat

    constructor (source: Tree, stage: Tree, receipt: Bytes, fate: nat -> Fate)
      ensures files == source && this.stage == stage && this.receipt == receipt && this.fate == fate
      ensures temps == map[] && made == [] && clock == 0
    {
      this.stage, this.receipt, this.fate := stage, receipt, fate;
      files, temps, backup, applied, made, errors, strays, clock := source, map[], map[], [], [], [], 0, 0;
    }

    /** Temporary names are fresh, and all of them are remembered. */
    ghost predicate Tidy() reads this {
      && (forall i :: 0 <= i < |made| ==> made[i] == i)
      && (forall t :: t in temps ==> t < |made|)
    }

    method Next() returns (f: Fate)
      modifies this`clock
      ensures f == fate(old(clock)) && clock == old(clock) + 1
    {
      f := fate(clock);
      clock := clock + 1;
    }

    /** Copies content beside the target and renames it into place. */
    method Replace(p: Path, content: Bytes) returns (ok: bool)
      requires Tidy()
      modifies this`files, this`temps, this`made, this`clock
      ensures Tidy() && old(clock) < clock <= old(clock) + 2
      ensures ok ==> files == old(files)[p := content] && temps == old(temps) && clock == old(clock) + 2
      ensures !ok ==> files == old(files) && exists k :: old(clock) <= k < clock && fate(k).Failed?
    {
      var t := |made|;
      made := made + [t];
      var copied := Next();
      if copied.Failed? {
        if copied.partial.Some? { temps := temps[t := copied.partial.value]; }
        assert fate(old(clock)).Failed?;
        return false;
      }
      temps := temps[t := content];
      var renamed := Next();
      if renamed.Failed? {
        assert fate(old(clock) + 1).Failed?;
        return false;
      }
      files := files[p := content];
      temps := temps - {t};
      return true;
    }

    method Unlink(p: Path) returns (ok: bool)
      modifies this`files, this`clock
      ensures clock == old(clock) + 1
      ensures ok ==> files == old(files) - {p}
      ensures !ok ==> files == old(files) && exists k :: old(clock) <= k < clock && fate(k).Failed?
    {
      var gone := Next();
      if gone.Failed? {
        assert fate(old(clock)).Failed?;
        return false;
      }
      files := files - {p};
      return true;
    }

    /** Saves what the source has at the paths to be changed, then writes the promotion manifest. */
    method Back(changed: seq<Path>) returns (ok: bool)
      modifies this`backup, this`clock
      ensures old(clock) <= clock <= old(clock) + |changed| + 1
      ensures ok ==> forall p :: At(backup, p) ==
                       if p == MANIFEST then Some(receipt) else if p in changed then At(files, p) else None
      ensures ok && (forall p :: p in changed ==> p in files) ==> clock == old(clock) + |changed| + 1
      ensures !ok ==> exists k :: old(clock) <= k < clock && fate(k).Failed?
    {
      backup := map[];
      var i := 0;
      while i < |changed|
        invariant i <= |changed| && old(clock) <= clock <= old(clock) + i
        invariant (forall p :: p in changed ==> p in files) ==> clock == old(clock) + i
        invariant forall p :: At(backup, p) == if p in changed[..i] then At(files, p) else None
      {
        var p := changed[i];
        if p in files {
          var copied := Next();
          if copied.Failed? {
            assert fate(clock - 1).Failed?;
            return false;
          }
          backup := backup[p := files[p]];
        }
        assert changed[..i + 1] == changed[..i] + [p];
        i := i + 1;
      }
      assert changed[..i] == changed;
      var written := Next();
      if written.Failed? {
        assert fate(clock - 1).Failed?;
        return false;
      }
      backup := backup[MANIFEST := receipt];
      return true;
    }

    /** Moves the staged content of each path in place, up to the first failure. */
    method Promote(changed: seq<Path>) returns (ok: bool)
      requires Tidy() && temps == map[] && applied == []
      modifies this`files, this`temps, this`made, this`applied, this`clock
      ensures Tidy() && old(clock) <= clock <= old(clock) + 2 * |changed|
      ensures forall p :: At(files, p) == At(if p in applied then stage else old(files), p)
      ensures applied <= changed
      ensures ok ==> applied == changed && temps == map[]
      ensures ok && (forall p :: p in changed ==> p in stage) ==> clock == old(clock) + 2 * |changed|
      ensures !ok ==> exists k :: old(clock) <= k < clock && fate(k).Failed?
    {
      var i := 0;
      while i < |changed|
        invariant i <= |changed| && applied == changed[..i] && old(clock) <= clock <= old(clock) + 2 * i
        invariant Tidy() && temps == map[]
        invariant (forall p :: p in changed ==> p in stage) ==> clock == old(clock) + 2 * i
        invariant forall p :: At(files, p) == At(if p in applied then stage else old(files), p)
      {
        var p := changed[i];
        ok := true;
        if p in stage {
          ok := Replace(p, stage[p]);
        } else if p in files {
          ok := Unlink(p);
        }
        if !ok { return; }
        applied := applied + [p];
        i := i + 1;
      }
      ok := true;
    }

    /** Puts the applied paths back, last first; a path that cannot be put back keeps the staged content. */
    method RollBack()
      requires Tidy()
      requires NoDuplicates(applied) && forall p :: p in applied ==> At(files, p) == At(stage, p)
      modifies this`files, this`temps, this`made, this`errors, this`clock
      ensures Tidy() && clock >= old(clock)
      ensures errors != [] ==> exists k :: old(clock) <= k < clock && fate(k).Failed?
      ensures forall p :: p in errors ==> p in applied
      ensures forall p :: At(files, p) ==
                if p in errors then At(stage, p) else if p in applied then At(backup, p) else At(old(files), p)
    {
      errors := [];
      var i := |applied|;
      while i > 0
        invariant 0 <= i <= |applied| && Tidy() && clock >= old(clock)
        invariant errors != [] ==> exists k :: old(clock) <= k < clock && fate(k).Failed?
        invariant forall p :: p in errors ==> p in applied[i..]
        invariant forall p :: At(files, p) ==
                    if p in errors then At(stage, p) else if p in applied[i..] then At(backup, p) else At(old(files), p)
      {
        i := i - 1;
        var p := applied[i];
        assert applied[i..] == [p] + applied[i + 1..];
        assert p !in applied[i + 1..];
        var ok := true;
        if p in backup {
          ok := Replace(p, backup[p]);
        } else if p in files {
          ok := Unlink(p);
        }
        if !ok { errors := errors + [p]; }
      }
      assert applied[0..] == applied;
    }

    /** Tries to remove every temporary file that still exists. */
    method Sweep() returns (left: nat)
      requires Tidy()
      modifies this`temps, this`clock
      ensures Tidy() && clock >= old(clock)
      ensures left == 0 <==> temps == map[]
      ensures left != 0 ==> exists k :: old(clock) <= k < clock && fate(k).Failed?
      ensures old(temps) == map[] ==> temps == map[]
    {
      left := 0;
      var i := 0;
      while i < |made|
        invariant i <= |made| && Tidy() && clock >= old(clock)
        invariant left != 0 ==> exists k :: old(clock) <= k < clock && fate(k).Failed?
        invariant left == 0 ==> forall t :: t in temps ==> t >= i
        invariant left > 0 ==> exists t :: t in temps && t < i
        invariant old(temps) == map[] ==> temps == map[]
      {
        if made[i] in temps {
          var gone := Next();
          if gone.Done? {
            ghost var was := temps;
            temps := temps - {i};
            assert forall t :: t in was && t < i ==> t in temps;
          } else {
            left := left + 1;
            assert i in temps;
          }
        }
        i := i + 1;
      }
      if left == 0 { assert forall t :: t !in temps; }
    }

    /** The handler: roll back, remove temporaries, and report whether the source is as it was;
        `past` is the source before the promotion, as the caller knows it to be. */
    method Recover(before: Tree) returns (outcome: Outcome)
      requires Tidy() && NoDuplicates(applied)
      requires forall p :: At(files, p) == At(if p in applied then stage else before, p)
      requires forall p :: p in applied ==> At(backup, p) == At(Restored(before, applied, receipt), p)
      modifies this`files, this`temps, this`made, this`errors, this`strays, this`clock
      ensures RolledBackExcept(before)
      ensures outcome.Escaped? || (outcome.Reported? && temps == map[])
      ensures (forall k :: k >= old(clock) ==> fate(k).Done?) ==> outcome.Reported? && errors == [] && strays == 0
      ensures outcome.Reported? ==>
                outcome.rolledBack == (errors == [] && strays == 0 && Restored(before, applied, receipt) == before)
    {
      RollBack();
      assert RolledBackExcept(before);
      strays := Sweep();
      var clean := errors == [] && strays == 0;
      if clean {
        SameTree(files, Restored(before, applied, receipt));
        var read := Next();
        if read.Failed? { return Escaped; }
      }
      var same := files == before;
      var left := Sweep();
      return if left != 0 then Escaped else Reported(clean && same);
    }

    /** Of all operations only this one fails. */
    ghost predicate OnlyFailure(n: nat) {
      forall k :: fate(k).Failed? <==> k == n
    }

    /** Promotes the paths and checks the outcome; a promotion without a failing step succeeds if the paths
        cover what differs. */
    method Attempt(before: Tree, changed: seq<Path>) returns (ok: bool)
      requires Tidy() && temps == map[] && applied == [] && files == before
      modifies this`files, this`temps, this`made, this`applied, this`clock
      ensures Tidy()
      ensures forall p :: At(files, p) == At(if p in applied then stage else before, p)
      ensures applied <= changed
      ensures ok ==> files == stage && temps == map[]
      ensures (forall k :: fate(k) == Done) && (forall p :: p in Changed(before, stage) ==> p in changed) ==> ok
      ensures (forall p :: p in changed ==> p in stage) && OnlyFailure(old(clock) + 2 * |changed|) ==>
                !ok && applied == changed && clock == old(clock) + 2 * |changed| + 1
    {
      ok := Promote(changed);
      if !ok { return; }
      if forall p :: p in Changed(before, stage) ==> p in changed {
        forall p ensures At(files, p) == At(stage, p) { assert p in Changed(before, stage) || At(before, p) == At(stage, p); }
        SameTree(files, stage);
      }
      var read := Next();
      ok := read.Done? && files == stage;
    }

    /** `before` is the manifest the run started from and `changed` the paths to promote. */
    method Apply(before: Tree, changed: seq<Path>) returns (outcome: Outcome)
      requires Tidy() && temps == map[] && NoDuplicates(changed)
      modifies this
      // all of it
      ensures outcome == Applied ==> files == stage && temps == map[]
      ensures old(files) == before && (forall k :: fate(k) == Done) && (forall p :: p in Changed(before, stage) ==> p in changed) ==>
                outcome == Applied
      // or nothing
      ensures outcome == SourceChanged <==> old(files) != before
      ensures outcome == SourceChanged ==> files == old(files)
      ensures outcome.Reported? ==> temps == map[]
      ensures old(files) == before && outcome != Applied ==> RolledBackExcept(before)
      ensures outcome.Reported? ==>
                outcome.rolledBack == (errors == [] && strays == 0 && !(MANIFEST in applied && At(before, MANIFEST) != Some(receipt)))
      // when only the closing look at the source fails: everything is applied and put back
      ensures old(files) == before && OnlyFailure(old(clock) + 3 * |changed| + 1)
              && (forall p :: p in changed ==> p in before && p in stage) ==>
                outcome.Reported? && applied == changed && errors == [] && strays == 0
    {
      applied, errors, strays := [], [], 0;
      if files != before { return SourceChanged; }
      var backed := Back(changed);
      if !backed { return Escaped; }
      var ok := Attempt(before, changed);
      if ok { return Applied; }
      outcome := Recover(before);
    }

    /** Every path that is not reported as an error is as the restored tree has it; the others are as staged. */
    ghost predicate RolledBackExcept(before: Tree) reads this {
      && (forall p :: p in errors ==> p in applied)
      && forall p :: At(files, p) == if p in errors then At(stage, p) else At(Restored(before, applied, receipt), p)
    }
  }

  /** A promotion that changes `manifest.json` and whose closing look at the source fails: the report says
      that it was not rolled back, and the file holds the promotion's own manifest. */
  method ManifestIsLost(was: Bytes, staged: Bytes, receipt: Bytes) returns (promoter: Promoter, outcome: Outcome)
    requires was != staged && was != receipt
    ensures fresh(promoter) && promoter.stage == map[MANIFEST := staged]
    ensures outcome == Reported(false) && promoter.files == map[MANIFEST := receipt] != map[MANIFEST := was]
  {
    var before, stage := map[MANIFEST := was], map[MANIFEST := staged];
    promoter := new Promoter(before, stage, receipt, (k: nat) => if k == 4 then Failed(None) else Done);
    assert MANIFEST in Changed(before, stage);
    outcome := promoter.Apply(before, [MANIFEST]);
    SameTree(promoter.files, Restored(before, [MANIFEST], receipt));
    assert promoter.files[MANIFEST] == receipt;
    assert promoter.files[MANIFEST] != map[MANIFEST := was][MANIFEST];
  }
}
