// What the sender packs, the receiver accepts; and an accepted transfer is pinned by its manifest's digest.

module TransferAgrees {
  import opened Basics
  import opened SwiftCommand
  import opened Transfer

  function ControlEntry(h: Canon, control: Bytes): Entry {
    Entry(CONTROL_PATH, HiddenVerifier, h.file(control), |control|)
  }

  function Packing(found: seq<File>, control: Bytes): seq<File> {
    found + [File(CONTROL_PATH, control)]
  }

  function MembersOf(h: Canon, m: Manifest, packed: seq<File>): (r: seq<Member>)
    ensures |r| == |packed| + 2
  {
    [Member("manifest.json", Packed(m)), Member("manifest.sha256", DigestText(h.manifest(m)))]
    + seq(|packed|, i requires 0 <= i < |packed| => Member("payload/" + packed[i].path, Data(packed[i].bytes)))
  }

  /** The listed files are the collected ones and the command's control file, within the sender's limits. */
  ghost predicate Collected(h: Canon, found: seq<File>, hidden: seq<string>, control: Bytes, entries: seq<Entry>, files: seq<Entry>) {
    && 0 < |found| < MAX_FILES
    && (forall f :: f in found ==> f.path != CONTROL_PATH)
    && EntriesOf(h, found, hidden, entries)
    && Total(entries) + |control| <= MAX_TOTAL_BYTES
    && files == Insert(entries, ControlEntry(h, control))
  }

  function ManifestOf(h: Canon, task: Digest, source: Digest, files: seq<Entry>, command: seq<string>, rest: string): Manifest {
    Manifest(task, h.listing(task, files), source, files, command, rest)
  }

  lemma CollectableIsCollected(h: Canon, found: seq<File>, hidden: seq<string>, control: Bytes, transferable: File -> bool)
    requires Collectable(h, found, hidden, Some(control), transferable)
    ensures var entries := EntriesFor(h, hidden, found);
            Collected(h, found, hidden, control, entries, Insert(entries, ControlEntry(h, control)))
  {
    forall i | 0 <= i < |found| ensures |found[i].bytes| <= MAX_FILE_BYTES { assert FileFits(found[i], transferable); }
    forall f | f in found ensures f.path != CONTROL_PATH { assert FileFits(f, transferable); }
  }

  /** The manifest and the archive members for a collected stage. */
  method BuildTransfer(h: Canon, found: seq<File>, hidden: seq<string>, command: seq<string>, transferable: File -> bool,
                       task: Digest, source: Digest, rest: string)
    returns (r: Result<(Manifest, seq<Member>), BuildError>)
    ensures r.Ok? <==> Collectable(h, found, hidden, ControlIf(h, command), transferable)
    ensures r.Ok? ==>
              && var (m, members) := r.value;
              && var control := ControlIf(h, command).value;
              && Collected(h, found, hidden, control, EntriesFor(h, hidden, found), m.files)
              && m == ManifestOf(h, task, source, m.files, command, rest)
              && members == MembersOf(h, m, Packing(found, control))
  {
    var collected := Collect(h, found, hidden, command, transferable);
    if collected.Err? { return Err(collected.error); }
    var (entries, control) := collected.value;
    CollectableIsCollected(h, found, hidden, control, transferable);
    var files := Insert(entries, ControlEntry(h, control));
    var m := ManifestOf(h, task, source, files, command, rest);
    return Ok((m, MembersOf(h, m, Packing(found, control))));
  }

  // -- the control file's path --

  lemma {:induction false} SplitPlain(a: string)
    requires '/' !in a
    ensures Split(a) == [a]
  {
    if a != "" {
      SplitPlain(a[..|a| - 1]);
      assert a == a[..|a| - 1] + [a[|a| - 1]];
    }
  }

  lemma {:induction false} SplitSlash(a: string, b: string)
    requires '/' !in b
    ensures Split(a + "/" + b) == Split(a) + [b]
  {
    var s := a + "/" + b;
    if b == "" {
      assert s[..|s| - 1] == a;
    } else {
      var front := b[..|b| - 1];
      assert s[..|s| - 1] == a + "/" + front;
      SplitSlash(a, front);
      assert b == front + [b[|b| - 1]];
    }
  }

  /** One component of a canonical path. */
  predicate Component(a: string) {
    && a != "" && a != "." && a != ".." && |a| <= 1000
    && '/' !in a && '\\' !in a && '\0' !in a && '\n' !in a && '\r' !in a
  }

  lemma PartsOfTwo(a: string, b: string)
    requires Component(a) && Component(b)
    ensures Parts(a + "/" + b) == [a, b]
  {
    SplitPlain(a);
    SplitSlash(a, b);
    assert Split(a + "/" + b) == [a, b];
    assert [a, b][1..] == [b] && [b][1..] == [];
    assert Keep([b]) == [b];
  }

  lemma TwoComponents(a: string, b: string)
    requires Component(a) && Component(b)
    ensures RemoteRelative(a + "/" + b) == Some(a + "/" + b)
  {
    var s := a + "/" + b;
    PartsOfTwo(a, b);
    RelativesAgree(s);
    assert [a, b][1..] == [b];
    assert Slashed([b]) == b && Slashed([a, b]) == a + "/" + b;
    assert AsPosix(s) == s;
    assert ".." !in [a, b];
    assert Contained(s);
  }

  lemma ControlIsCanonical()
    ensures RemoteRelative(CONTROL_PATH) == Some(CONTROL_PATH)
  {
    TwoComponents(CONTROL_DIRECTORY, CONTROL_FILE);
  }

  // -- listing the control file among the others --

  /** No file of the list is at, above or below another one. */
  ghost predicate Apart(files: seq<Entry>) {
    forall i, j :: 0 <= i < j < |files| ==> !Clash(files[i].path, files[j].path)
  }

  ghost predicate Canonical(rel: string -> Option<string>, files: seq<Entry>) {
    forall e :: e in files ==> rel(e.path) == Some(e.path)
  }

  ghost predicate ClearOf(files: seq<Entry>, path: string) {
    forall e :: e in files ==> !Clash(e.path, path)
  }

  lemma ApartHead(x: Entry, files: seq<Entry>)
    ensures Apart([x] + files) <==> Apart(files) && ClearOf(files, x.path)
  {
    var all := [x] + files;
    assert forall i :: 0 <= i < |files| ==> all[i + 1] == files[i];
    if Apart(all) {
      forall e | e in files ensures !Clash(e.path, x.path) {
        var i :| 0 <= i < |files| && files[i] == e;
        assert all[0] == x && all[i + 1] == e;
      }
      forall i, j | 0 <= i < j < |files| ensures !Clash(files[i].path, files[j].path) {
        assert all[i + 1] == files[i] && all[j + 1] == files[j];
      }
    }
  }

  lemma {:induction false} InsertApart(files: seq<Entry>, x: Entry)
    ensures Apart(Insert(files, x)) <==> Apart(files) && ClearOf(files, x.path)
    decreases |files|
  {
    if files == [] {
    } else if Precedes(x.path, files[0].path) {
      ApartHead(x, files);
    } else {
      var rest := files[1..];
      InsertApart(rest, x);
      ApartHead(files[0], Insert(rest, x));
      ApartHead(files[0], rest);
      assert [files[0]] + rest == files;
      assert x in Insert(rest, x);
    }
  }

  lemma {:induction false} TotalHead(x: Entry, files: seq<Entry>)
    ensures Total([x] + files) == x.size + Total(files)
    decreases |files|
  {
    if files == [] {
      assert [x] + files == [x] && [x][..0] == [];
    } else {
      var front, last := files[..|files| - 1], files[|files| - 1];
      TotalHead(x, front);
      assert ([x] + files)[..|files|] == [x] + front;
    }
  }

  lemma {:induction false} InsertTotal(files: seq<Entry>, x: Entry)
    ensures Total(Insert(files, x)) == Total(files) + x.size
    decreases |files|
  {
    if files == [] {
      TotalHead(x, []);
    } else if Precedes(x.path, files[0].path) {
      TotalHead(x, files);
    } else {
      InsertTotal(files[1..], x);
      TotalHead(files[0], Insert(files[1..], x));
      TotalHead(files[0], files[1..]);
      assert [files[0]] + files[1..] == files;
    }
  }

  // -- a list of canonical paths that stay apart passes the receiver's path checks exactly --

  lemma ApartIsUnpackable(rel: string -> Option<string>, files: seq<Entry>)
    requires Canonical(rel, files)
    ensures Unpackable(rel, files) <==> Apart(files)
    ensures Apart(files) ==> PathsOk(rel, files)
  {
    assert forall i :: 0 <= i < |files| ==> files[i] in files;
    if Apart(files) {
      forall i, j | 0 <= i < j < |files| ensures rel(files[i].path) != rel(files[j].path) {
        assert !Clash(files[i].path, files[j].path);
        assert files[i] in files && files[j] in files;
      }
    }
  }

  // -- the archive of a list of packed files --

  predicate DistinctPaths(packed: seq<File>) {
    forall i, j :: 0 <= i < j < |packed| ==> packed[i].path != packed[j].path
  }

  lemma PayloadNames(p: string, q: string)
    ensures "payload/" + p == "payload/" + q <==> p == q
    ensures "payload/" + p != "manifest.json" && "payload/" + p != "manifest.sha256"
  {
    assert ("payload/" + p)[8..] == p && ("payload/" + q)[8..] == q;
    assert ("payload/" + p)[0] == 'p';
  }

  lemma MembersDistinct(h: Canon, m: Manifest, packed: seq<File>)
    requires DistinctPaths(packed)
    ensures DistinctNames(MembersOf(h, m, packed))
  {
    var members := MembersOf(h, m, packed);
    forall i, j | 0 <= i < j < |members| ensures members[i].name != members[j].name {
      if j >= 2 {
        if i >= 2 {
          PayloadNames(packed[i - 2].path, packed[j - 2].path);
        } else {
          PayloadNames(packed[j - 2].path, "");
        }
      }
    }
  }

  lemma MemberFound(h: Canon, m: Manifest, packed: seq<File>, i: nat)
    requires DistinctPaths(packed) && i < |packed|
    ensures Lookup(MembersOf(h, m, packed), "payload/" + packed[i].path) == Some(Data(packed[i].bytes))
  {
    MembersDistinct(h, m, packed);
    LooksUp(MembersOf(h, m, packed), i + 2);
  }

  lemma ManifestCarried(h: Canon, m: Manifest, packed: seq<File>)
    requires DistinctPaths(packed) && h.manifestSize(m) <= MAX_MANIFEST_BYTES
    ensures Carries(h, MembersOf(h, m, packed), m)
  {
    MembersDistinct(h, m, packed);
    LooksUp(MembersOf(h, m, packed), 0);
    LooksUp(MembersOf(h, m, packed), 1);
  }

  /** Every listed file was packed. */
  ghost predicate ListedArePacked(h: Canon, files: seq<Entry>, packed: seq<File>) {
    forall e :: e in files ==> exists i :: 0 <= i < |packed| && Describes(h, e, packed[i])
  }

  /** Every packed file is listed. */
  ghost predicate PackedAreListed(h: Canon, files: seq<Entry>, packed: seq<File>) {
    forall i :: 0 <= i < |packed| ==> IsListed(h, files, packed[i])
  }

  ghost predicate IsListed(h: Canon, files: seq<Entry>, f: File) {
    exists e :: e in files && Describes(h, e, f)
  }

  predicate Describes(h: Canon, e: Entry, f: File) {
    e.path == f.path && e.sha == h.file(f.bytes) && e.size == |f.bytes|
  }

  /** Each packed file is the member of its name, and the manifest and its digest are the only others. */
  ghost predicate Archives(members: seq<Member>, packed: seq<File>) {
    && (forall i :: 0 <= i < |packed| ==> Holds(members, packed[i]))
    && (forall name :: name in NamesOf(members) <==>
          name == "manifest.json" || name == "manifest.sha256" || exists i :: 0 <= i < |packed| && name == MemberName(packed[i]))
  }

  predicate Holds(members: seq<Member>, f: File) {
    Lookup(members, MemberName(f)) == Some(Data(f.bytes))
  }

  function MemberName(f: File): string {
    "payload/" + f.path
  }

  lemma MembersArchive(h: Canon, m: Manifest, packed: seq<File>)
    requires DistinctPaths(packed)
    ensures Archives(MembersOf(h, m, packed), packed)
  {
    var members := MembersOf(h, m, packed);
    forall i | 0 <= i < |packed| ensures Holds(members, packed[i]) { MemberFound(h, m, packed, i); }
    forall name | name in NamesOf(members)
      ensures name == "manifest.json" || name == "manifest.sha256" || exists i :: 0 <= i < |packed| && name == MemberName(packed[i])
    {
      var x :| x in members && x.name == name;
      var i :| 0 <= i < |members| && members[i] == x;
    }
    assert members[0] in members && members[1] in members;
    forall i | 0 <= i < |packed| ensures MemberName(packed[i]) in NamesOf(members) { assert Holds(members, packed[i]); }
  }

  // -- the agreement --

  /** The stage as it lies on disk: canonical paths, and no file where another one has a directory. */
  ghost predicate TreeLike(rel: string -> Option<string>, found: seq<File>) {
    && (forall f :: f in found ==> rel(f.path) == Some(f.path))
    && forall i, j :: 0 <= i < j < |found| ==> !Clash(found[i].path, found[j].path)
  }

  ghost predicate ClearOfControl(found: seq<File>) {
    forall f :: f in found ==> !Clash(f.path, CONTROL_PATH)
  }

  lemma CollectedArePacked(h: Canon, found: seq<File>, hidden: seq<string>, control: Bytes, entries: seq<Entry>, files: seq<Entry>)
    requires Collected(h, found, hidden, control, entries, files)
    ensures ListedArePacked(h, files, Packing(found, control))
  {
    var packed := Packing(found, control);
    assert packed[|found|] == File(CONTROL_PATH, control);
    assert Describes(h, ControlEntry(h, control), packed[|found|]);
    forall e | e in files ensures exists i :: 0 <= i < |packed| && Describes(h, e, packed[i]) {
      if e != ControlEntry(h, control) {
        var i :| 0 <= i < |entries| && entries[i] == e;
        assert packed[i] == found[i] && Describes(h, e, packed[i]);
      }
    }
  }

  lemma CollectedAreListed(h: Canon, found: seq<File>, hidden: seq<string>, control: Bytes, entries: seq<Entry>, files: seq<Entry>)
    requires Collected(h, found, hidden, control, entries, files)
    ensures PackedAreListed(h, files, Packing(found, control))
  {
    var packed := Packing(found, control);
    forall i | 0 <= i < |packed| ensures IsListed(h, files, packed[i]) {
      if i < |found| {
        assert entries[i] in files && Describes(h, entries[i], packed[i]);
      } else {
        assert packed[i] == File(CONTROL_PATH, control);
        assert ControlEntry(h, control) in files && Describes(h, ControlEntry(h, control), packed[i]);
      }
    }
  }

  lemma CollectedMatch(h: Canon, rel: string -> Option<string>, found: seq<File>, hidden: seq<string>, control: Bytes,
                       entries: seq<Entry>, files: seq<Entry>, members: seq<Member>)
    requires Collected(h, found, hidden, control, entries, files) && Canonical(rel, files)
    requires Archives(members, Packing(found, control))
    ensures AllMatch(h, rel, members, files)
    ensures forall e :: e in files ==> PayloadName(rel, e) in NamesOf(members)
  {
    CollectedArePacked(h, found, hidden, control, entries, files);
  }

  lemma CollectedExpected(h: Canon, rel: string -> Option<string>, found: seq<File>, hidden: seq<string>, control: Bytes,
                          entries: seq<Entry>, files: seq<Entry>)
    requires Collected(h, found, hidden, control, entries, files) && Canonical(rel, files)
    ensures forall i :: 0 <= i < |Packing(found, control)| ==> MemberName(Packing(found, control)[i]) in Expected(rel, files)
  {
    CollectedAreListed(h, found, hidden, control, entries, files);
  }

  lemma CollectedNames(h: Canon, rel: string -> Option<string>, found: seq<File>, hidden: seq<string>, control: Bytes,
                       entries: seq<Entry>, files: seq<Entry>, members: seq<Member>)
    requires Collected(h, found, hidden, control, entries, files) && Canonical(rel, files)
    requires Archives(members, Packing(found, control))
    ensures AllMatch(h, rel, members, files) && NamesOf(members) == Expected(rel, files)
  {
    CollectedMatch(h, rel, found, hidden, control, entries, files, members);
    CollectedExpected(h, rel, found, hidden, control, entries, files);
    var packed := Packing(found, control);
    forall name | name in NamesOf(members) ensures name in Expected(rel, files) {
      if name != "manifest.json" && name != "manifest.sha256" {
        var i :| 0 <= i < |packed| && name == MemberName(packed[i]);
      }
    }
  }

  lemma CollectedPaths(h: Canon, rel: string -> Option<string>, found: seq<File>, hidden: seq<string>, control: Bytes,
                       entries: seq<Entry>, files: seq<Entry>)
    requires Collected(h, found, hidden, control, entries, files) && TreeLike(rel, found)
    requires rel(CONTROL_PATH) == Some(CONTROL_PATH)
    ensures Canonical(rel, files)
    ensures Apart(files) <==> ClearOfControl(found)
    ensures DistinctPaths(Packing(found, control))
  {
    InsertApart(entries, ControlEntry(h, control));
  }

  lemma CollectedSizes(h: Canon, found: seq<File>, hidden: seq<string>, command: seq<string>, entries: seq<Entry>, files: seq<Entry>)
    requires ControlIsJson(h) && Sendable(command) && Collected(h, found, hidden, ControlOf(h, command), entries, files)
    ensures SizesOk(files) && 0 < |files| <= MAX_FILES
  {
    InsertTotal(entries, ControlEntry(h, ControlOf(h, command)));
    ControlFits(h, CommandMode(command, LocalRelative).value, command);
    forall e | e in files ensures e.size <= MAX_FILE_BYTES {
      if e != ControlEntry(h, ControlOf(h, command)) {
        var i :| 0 <= i < |entries| && entries[i] == e;
      }
    }
  }

  lemma PackedIsAcceptedIff(h: Canon, rel: string -> Option<string>, found: seq<File>, hidden: seq<string>, control: Bytes,
                            entries: seq<Entry>, m: Manifest)
    requires Collected(h, found, hidden, control, entries, m.files) && SizesOk(m.files) && 0 < |m.files| <= MAX_FILES
    requires m.stage == h.listing(m.task, m.files) && h.manifestSize(m) <= MAX_MANIFEST_BYTES
    requires TreeLike(rel, found) && rel(CONTROL_PATH) == Some(CONTROL_PATH)
    ensures Accepts(h, rel, MembersOf(h, m, Packing(found, control)), m) <==> ClearOfControl(found)
  {
    var packed := Packing(found, control);
    CollectedPaths(h, rel, found, hidden, control, entries, m.files);
    ApartIsUnpackable(rel, m.files);
    MembersDistinct(h, m, packed);
    ManifestCarried(h, m, packed);
    MembersArchive(h, m, packed);
    CollectedNames(h, rel, found, hidden, control, entries, m.files, MembersOf(h, m, packed));
    assert ControlEntry(h, control) in m.files;
  }

  /** What the sender packs within its own limits, the receiver accepts and unpacks, exactly unless a file of
      the stage lies where the control file or its directory has to go. */
  lemma SentIsAcceptedIff(h: Canon, found: seq<File>, hidden: seq<string>, command: seq<string>, entries: seq<Entry>, m: Manifest)
    requires ControlIsJson(h) && Sendable(command) && Collected(h, found, hidden, ControlOf(h, command), entries, m.files)
    requires m.stage == h.listing(m.task, m.files) && h.manifestSize(m) <= MAX_MANIFEST_BYTES && TreeLike(RemoteRelative, found)
    ensures Accepts(h, RemoteRelative, MembersOf(h, m, Packing(found, ControlOf(h, command))), m) <==> ClearOfControl(found)
  {
    ControlIsCanonical();
    CollectedSizes(h, found, hidden, command, entries, m.files);
    PackedIsAcceptedIff(h, RemoteRelative, found, hidden, ControlOf(h, command), entries, m);
  }

  lemma OneComponent(a: string)
    requires Component(a)
    ensures RemoteRelative(a) == Some(a)
  {
    SplitPlain(a);
    RelativesAgree(a);
    PartsOfOne(a);
    assert Slashed([a]) == a;
    assert Contained(a);
  }

  lemma PartsOfOne(a: string)
    requires Component(a) && Split(a) == [a]
    ensures Parts(a) == [a]
  {
    assert [a][1..] == [];
    assert Keep([]) == [];
    assert Keep([a]) == [a] + Keep([]);
  }

  const SWIFT_TEST: seq<string> := ["swift", "test"]

  lemma SwiftTestIsSendable()
    ensures Sendable(SWIFT_TEST)
  {
    var command := SWIFT_TEST;
    assert Utf8("swift") <= 4 * 5 && Utf8("test") <= 4 * 4 by { Utf8Short("swift"); Utf8Short("test"); }
    assert command[..1] == ["swift"] && command[..1][..0] == [];
    assert ArgvBytes(command) == Utf8("swift") + 1 + Utf8("test") + 1;
    assert command[2..] == [] && command[..2] == command;
  }

  lemma {:induction false} Utf8Short(s: string)
    ensures Utf8(s) <= 4 * |s|
  {
    if s != "" { Utf8Short(s[..|s| - 1]); }
  }

  /** A stage of one empty file that lies where the control file's directory has to go. */
  const RESERVED_STAGE: seq<File> := [File(CONTROL_DIRECTORY, [])]

  function Anything(): File -> bool {
    f => true
  }

  /** It is packed without complaint, and the receiver refuses what arrives. */
  method ReservedDirectoryIsLost(h: Canon, task: Digest, source: Digest, rest: string)
    returns (sent: Result<(Manifest, seq<Member>), BuildError>, received: Result<map<string, Bytes>, ExtractError>)
    requires ControlIsJson(h)
    ensures sent.Ok? && received.Err?
  {
    ReservedIsCollectable(h);
    ReservedIsCanonical();
    sent, received := DeliverReserved(h, RemoteRelative, SWIFT_TEST, task, source, rest);
  }

  predicate KeepsReserved(rel: string -> Option<string>) {
    rel(CONTROL_PATH) == Some(CONTROL_PATH) && rel(CONTROL_DIRECTORY) == Some(CONTROL_DIRECTORY)
  }

  lemma ReservedIsCanonical()
    ensures KeepsReserved(RemoteRelative)
  {
    ControlIsCanonical();
    OneComponent(CONTROL_DIRECTORY);
  }

  method DeliverReserved(h: Canon, rel: string -> Option<string>, command: seq<string>, task: Digest, source: Digest, rest: string)
    returns (sent: Result<(Manifest, seq<Member>), BuildError>, received: Result<map<string, Bytes>, ExtractError>)
    requires Collectable(h, RESERVED_STAGE, [], ControlIf(h, command), Anything())
    requires KeepsReserved(rel)
    ensures sent.Ok? && received.Err?
  {
    sent := BuildTransfer(h, RESERVED_STAGE, [], command, Anything(), task, source, rest);
    ReservedIsRefused(h, rel, ControlIf(h, command).value, EntriesFor(h, [], RESERVED_STAGE), sent.value.0);
    received := Extract(h, rel, sent.value.1);
  }

  lemma ReservedIsCollectable(h: Canon)
    requires ControlIsJson(h)
    ensures Collectable(h, RESERVED_STAGE, [], ControlIf(h, SWIFT_TEST), Anything())
  {
    var command := SWIFT_TEST;
    SwiftTestIsSendable();
    ControlFits(h, CommandMode(command, LocalRelative).value, command);
    ReservedFits(h, ControlIf(h, command).value);
  }

  lemma ReservedFits(h: Canon, control: Bytes)
    requires |control| <= 400 * 1024
    ensures Collectable(h, RESERVED_STAGE, [], Some(control), Anything())
  {
    var entries := EntriesFor(h, [], RESERVED_STAGE);
    assert entries[..0] == [] && Total(entries) == 0;
    assert |CONTROL_DIRECTORY| < |CONTROL_PATH|;
  }

  lemma ReservedIsRefused(h: Canon, rel: string -> Option<string>, control: Bytes, entries: seq<Entry>, m: Manifest)
    requires Collected(h, RESERVED_STAGE, [], control, entries, m.files) && m.stage == h.listing(m.task, m.files)
    requires KeepsReserved(rel)
    ensures forall other :: !Accepts(h, rel, MembersOf(h, m, Packing(RESERVED_STAGE, control)), other)
  {
    var members := MembersOf(h, m, Packing(RESERVED_STAGE, control));
    assert RESERVED_STAGE[0] in RESERVED_STAGE;
    assert CONTROL_DIRECTORY + "/" <= CONTROL_PATH;
    assert !ClearOfControl(RESERVED_STAGE);
    if h.manifestSize(m) <= MAX_MANIFEST_BYTES && SizesOk(m.files) && 0 < |m.files| <= MAX_FILES {
      PackedIsAcceptedIff(h, rel, RESERVED_STAGE, [], control, entries, m);
    }
    assert members[0] == Member("manifest.json", Packed(m));
    forall other ensures Carries(h, members, other) ==> other == m { }
  }

  lemma SameFiles(h: Canon, rel: string -> Option<string>, a: seq<Member>, b: seq<Member>, files: seq<Entry>,
                  p: map<string, Bytes>, q: map<string, Bytes>)
    requires forall x, y :: h.file(x) == h.file(y) ==> x == y
    requires AllMatch(h, rel, a, files) && AllMatch(h, rel, b, files)
    requires Unpacked(rel, a, files, p) && Unpacked(rel, b, files, q)
    ensures p == q
  {
    assert p.Keys == q.Keys;
    forall path | path in p.Keys ensures p[path] == q[path] {
      var e :| e in files && rel(e.path) == Some(path);
    }
  }

  /** With distinct digests, an accepted transfer is pinned by its manifest's digest: the same files arrive. */
  lemma DigestPinsPayload(h: Canon, rel: string -> Option<string>, a: seq<Member>, b: seq<Member>, m: Manifest, n: Manifest,
                          p: map<string, Bytes>, q: map<string, Bytes>)
    requires forall x, y :: h.manifest(x) == h.manifest(y) ==> x == y
    requires forall x, y :: h.file(x) == h.file(y) ==> x == y
    requires Accepts(h, rel, a, m) && Accepts(h, rel, b, n) && h.manifest(m) == h.manifest(n)
    requires Unpacked(rel, a, m.files, p) && Unpacked(rel, b, n.files, q)
    ensures p == q
  {
    SameFiles(h, rel, a, b, m.files, p, q);
  }
}
