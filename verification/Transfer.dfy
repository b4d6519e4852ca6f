// One transfer to the Mac verifier: what the sender packs and what the receiver checks before unpacking.

module Transfer {
  import opened Basics
  import opened SwiftCommand

  type Digest = nat
  type Bytes = seq<bv8>

  const MAX_FILES := 4096
  const MAX_FILE_BYTES := 4 * 1024 * 1024
  const MAX_TOTAL_BYTES := 48 * 1024 * 1024
  const MAX_MANIFEST_BYTES := 4 * 1024 * 1024
  const CONTROL_DIRECTORY := "__ci_hidden_verifier__"
  const CONTROL_FILE := "command-plan.json"
  const CONTROL_PATH := CONTROL_DIRECTORY + "/" + CONTROL_FILE

  datatype Role = Stage | HiddenVerifier

  datatype Entry = Entry(path: string, role: Role, sha: Digest, size: nat)

  /** The manifest; `rest` stands for limits and the expected machine. */
  datatype Manifest = Manifest(task: Digest, stage: Digest, source: Digest, files: seq<Entry>, command: seq<string>, rest: string)

  datatype Content = Packed(manifest: Manifest) | DigestText(digest: Digest) | Data(bytes: Bytes)

  datatype Member = Member(name: string, content: Content)

  datatype File = File(path: string, bytes: Bytes)

  /** Digests and canonical forms that both sides compute alike. */
  datatype Canon = Canon(
    manifest: Manifest -> Digest, manifestSize: Manifest -> nat, listing: (Digest, seq<Entry>) -> Digest,
    file: Bytes -> Digest, control: (Mode, seq<string>) -> Bytes)

  // -- the size of the control file --

  /** Bytes of a character in ASCII-only JSON text. */
  function JsonWidth(c: char): nat {
    if c in {'"', '\\', '\n', '\r', '\t'} || c as int == 8 || c as int == 12 then 2
    else if c as int < 0x20 then 6
    else if c as int < 0x80 then 1
    else if c as int < 0x10000 then 6
    else 12
  }

  function JsonLength(s: string): nat {
    if s == "" then 0 else JsonLength(s[..|s| - 1]) + JsonWidth(s[|s| - 1])
  }

  /** Quoted arguments, each with its comma. */
  function QuotedLength(command: seq<string>): nat {
    if command == [] then 0 else QuotedLength(command[..|command| - 1]) + JsonLength(command[|command| - 1]) + 3
  }

  function ModeLength(mode: Mode): nat {
    match mode case PackageTest => 18 case PackageBuild => 19 case XcodeBuild => 25 case Typecheck => 15
  }

  /** The control file is one JSON object with the schema, the mode and the command. */
  ghost predicate ControlIsJson(h: Canon) {
    forall mode, command :: command != [] ==> |h.control(mode, command)| + 1 == 83 + ModeLength(mode) + QuotedLength(command)
  }

  lemma {:induction false} JsonIsShort(s: string)
    ensures JsonLength(s) <= 6 * Utf8(s)
  {
    if s != "" { JsonIsShort(s[..|s| - 1]); }
  }

  lemma {:induction false} QuotedIsShort(command: seq<string>)
    ensures QuotedLength(command) <= 6 * ArgvBytes(command)
  {
    if command != [] {
      QuotedIsShort(command[..|command| - 1]);
      JsonIsShort(command[|command| - 1]);
    }
  }

  /** A bounded command's control file stays far below the limit for one file. */
  lemma ControlFits(h: Canon, mode: Mode, command: seq<string>)
    requires ControlIsJson(h) && ArgvBounded(command)
    ensures |h.control(mode, command)| <= 400 * 1024 < MAX_FILE_BYTES
  {
    QuotedIsShort(command);
  }

  datatype BuildError = ReservedPath | FileCount | NotTransferable | FileTooLarge | TotalTooLarge | BadCommand

  // -- the sender --

  function RoleOf(hidden: seq<string>, path: string): Role {
    if exists v :: v in hidden && (path == v || v == "." || v + "/" <= path) then HiddenVerifier else Stage
  }

  function EntryOf(h: Canon, hidden: seq<string>, f: File): Entry {
    Entry(f.path, RoleOf(hidden, f.path), h.file(f.bytes), |f.bytes|)
  }

  function Total(sizes: seq<Entry>): (n: nat) {
    if sizes == [] then 0 else Total(sizes[..|sizes| - 1]) + sizes[|sizes| - 1].size
  }

  /** Puts an entry at its place among entries sorted by path. */
  function Insert(files: seq<Entry>, x: Entry): (r: seq<Entry>)
    ensures |r| == |files| + 1 && forall e :: e in r <==> e in files || e == x
  {
    if files == [] then [x]
    else if Precedes(x.path, files[0].path) then [x] + files
    else [files[0]] + Insert(files[1..], x)
  }

  predicate InPathOrder(files: seq<Entry>) {
    forall i, j :: 0 <= i < j < |files| ==> Precedes(files[i].path, files[j].path)
  }

  /** The listing of files in path order stays in path order when the control file is put in its place. */
  lemma {:induction false} InsertKeepsOrder(files: seq<Entry>, x: Entry)
    requires InPathOrder(files) && forall e :: e in files ==> e.path != x.path
    ensures InPathOrder(Insert(files, x))
  {
    if files != [] {
      PrecedesIsTotal(x.path, files[0].path);
      if Precedes(x.path, files[0].path) {
        forall j | 0 < j < |files| ensures Precedes(x.path, files[j].path) {
          PrecedesChains(x.path, files[0].path, files[j].path);
        }
      } else {
        var rest := files[1..];
        InsertKeepsOrder(rest, x);
        forall e | e in Insert(rest, x) ensures Precedes(files[0].path, e.path) {
          if e != x {
            var i :| 0 <= i < |rest| && rest[i] == e;
            assert files[i + 1] == e;
          }
        }
        var all := Insert(rest, x);
        forall j | 0 <= j < |all| ensures Precedes(files[0].path, all[j].path) { assert all[j] in all; }
      }
    }
  }

  predicate Sendable(command: seq<string>) {
    CommandMode(command, LocalRelative).Some?
  }

  /** The control file of an accepted command. */
  function ControlOf(h: Canon, command: seq<string>): Bytes
    requires Sendable(command)
  {
    h.control(CommandMode(command, LocalRelative).value, command)
  }

  ghost predicate EntriesOf(h: Canon, found: seq<File>, hidden: seq<string>, entries: seq<Entry>) {
    && |entries| == |found|
    && forall i :: 0 <= i < |found| ==> entries[i] == EntryOf(h, hidden, found[i]) && entries[i].size <= MAX_FILE_BYTES
  }

  function EntriesFor(h: Canon, hidden: seq<string>, found: seq<File>): (r: seq<Entry>)
    ensures |r| == |found| && forall i :: 0 <= i < |found| ==> r[i] == EntryOf(h, hidden, found[i])
  {
    seq(|found|, i requires 0 <= i < |found| => EntryOf(h, hidden, found[i]))
  }

  /** The sender's limits for one file. */
  predicate FileFits(f: File, transferable: File -> bool) {
    f.path != CONTROL_PATH && transferable(f) && |f.bytes| <= MAX_FILE_BYTES
  }

  /** The control file of a command, if the sender accepts it. */
  function ControlIf(h: Canon, command: seq<string>): Option<Bytes> {
    if Sendable(command) then Some(ControlOf(h, command)) else None
  }

  predicate StageFits(h: Canon, found: seq<File>, hidden: seq<string>, transferable: File -> bool) {
    && 0 < |found| < MAX_FILES && (forall f :: f in found ==> FileFits(f, transferable))
    && Total(EntriesFor(h, hidden, found)) <= MAX_TOTAL_BYTES
  }

  /** Everything the sender demands of the stage and the command's control file. */
  predicate Collectable(h: Canon, found: seq<File>, hidden: seq<string>, control: Option<Bytes>, transferable: File -> bool) {
    && StageFits(h, found, hidden, transferable)
    && control.Some?
    && Total(EntriesFor(h, hidden, found)) + |control.value| <= MAX_TOTAL_BYTES
  }

  lemma EntriesGrow(h: Canon, hidden: seq<string>, found: seq<File>, i: nat)
    requires i < |found|
    ensures EntriesFor(h, hidden, found[..i + 1]) == EntriesFor(h, hidden, found[..i]) + [EntryOf(h, hidden, found[i])]
    ensures Total(EntriesFor(h, hidden, found[..i + 1])) == Total(EntriesFor(h, hidden, found[..i])) + |found[i].bytes|
    ensures Total(EntriesFor(h, hidden, found[..i + 1])) <= Total(EntriesFor(h, hidden, found))
  {
    var next := EntriesFor(h, hidden, found[..i + 1]);
    assert next[..|next| - 1] == EntriesFor(h, hidden, found[..i]);
    assert EntriesFor(h, hidden, found)[..i + 1] == next;
    TotalGrows(EntriesFor(h, hidden, found), i + 1);
  }

  method CollectFiles(h: Canon, found: seq<File>, hidden: seq<string>, transferable: File -> bool)
    returns (r: Result<seq<Entry>, BuildError>)
    ensures r.Ok? <==> StageFits(h, found, hidden, transferable)
    ensures r.Ok? ==> r.value == EntriesFor(h, hidden, found)
  {
    if exists f :: f in found && f.path == CONTROL_PATH { return Err(ReservedPath); }
    if |found| == 0 || |found| >= MAX_FILES { return Err(FileCount); }
    var entries: seq<Entry> := [];
    var total, i := 0, 0;
    while i < |found|
      invariant i <= |found| && entries == EntriesFor(h, hidden, found[..i]) && total == Total(entries) <= MAX_TOTAL_BYTES
      invariant forall k :: 0 <= k < i ==> FileFits(found[k], transferable)
    {
      var f := found[i];
      assert f in found;
      EntriesGrow(h, hidden, found, i);
      if |f.bytes| > MAX_FILE_BYTES { return Err(FileTooLarge); }
      total := total + |f.bytes|;
      if total > MAX_TOTAL_BYTES { return Err(TotalTooLarge); }
      if !transferable(f) { return Err(NotTransferable); }
      entries := entries + [EntryOf(h, hidden, f)];
      i := i + 1;
    }
    assert found[..i] == found;
    return Ok(entries);
  }

  method ControlFile(h: Canon, command: seq<string>) returns (control: Option<Bytes>)
    ensures control == ControlIf(h, command)
  {
    var mode := LocalCommand(command);
    return if mode.Some? then Some(h.control(mode.value, command)) else None;
  }

  method Collect(h: Canon, found: seq<File>, hidden: seq<string>, command: seq<string>, transferable: File -> bool)
    returns (r: Result<(seq<Entry>, Bytes), BuildError>)
    ensures r.Ok? <==> Collectable(h, found, hidden, ControlIf(h, command), transferable)
    ensures r.Ok? ==> r.value == (EntriesFor(h, hidden, found), ControlIf(h, command).value)
  {
    var entries := CollectFiles(h, found, hidden, transferable);
    if entries.Err? { return Err(entries.error); }
    var control := ControlFile(h, command);
    if control.None? { return Err(BadCommand); }
    if Total(entries.value) + |control.value| > MAX_TOTAL_BYTES { return Err(TotalTooLarge); }
    return Ok((entries.value, control.value));
  }

  // -- the receiver --

  datatype ExtractError =
    | DuplicateMember | TooManyMembers | NoManifest | ManifestTooLarge | ManifestDigest | FileList
    | BadPath | RepeatedPath | FileSize | MembersDiffer | NoHiddenFile | StageDigest | FileDigest | PathClash

  function NamesOf(members: seq<Member>): set<string> {
    set m | m in members :: m.name
  }

  function Lookup(members: seq<Member>, name: string): (r: Option<Content>)
    ensures r.Some? <==> name in NamesOf(members)
  {
    if members == [] then None
    else if members[0].name == name then Some(members[0].content)
    else
      assert NamesOf(members) == {members[0].name} + NamesOf(members[1..]);
      Lookup(members[1..], name)
  }

  predicate DistinctNames(members: seq<Member>) {
    forall i, j :: 0 <= i < j < |members| ==> members[i].name != members[j].name
  }

  lemma {:induction false} LooksUp(members: seq<Member>, i: nat)
    requires DistinctNames(members) && i < |members|
    ensures Lookup(members, members[i].name) == Some(members[i].content)
    decreases i
  {
    if i > 0 { LooksUp(members[1..], i - 1); }
  }

  /** The manifest a transfer carries, bound by the digest beside it. */
  predicate Carries(h: Canon, members: seq<Member>, m: Manifest) {
    && Lookup(members, "manifest.json") == Some(Packed(m))
    && h.manifestSize(m) <= MAX_MANIFEST_BYTES
    && Lookup(members, "manifest.sha256") == Some(DigestText(h.manifest(m)))
  }

  predicate PathsOk(rel: string -> Option<string>, files: seq<Entry>) {
    && (forall e :: e in files ==> rel(e.path).Some?)
    && forall i, j :: 0 <= i < j < |files| ==> rel(files[i].path) != rel(files[j].path)
  }

  predicate SizesOk(files: seq<Entry>) {
    Total(files) <= MAX_TOTAL_BYTES && forall e :: e in files ==> e.size <= MAX_FILE_BYTES
  }

  function PayloadName(rel: string -> Option<string>, e: Entry): string {
    "payload/" + if rel(e.path).Some? then rel(e.path).value else ""
  }

  function Expected(rel: string -> Option<string>, files: seq<Entry>): set<string> {
    {"manifest.json", "manifest.sha256"} + (set e | e in files :: PayloadName(rel, e))
  }

  predicate Matches(h: Canon, rel: string -> Option<string>, members: seq<Member>, e: Entry) {
    && Lookup(members, PayloadName(rel, e)).Some?
    && var c := Lookup(members, PayloadName(rel, e)).value;
    && c.Data? && |c.bytes| == e.size && h.file(c.bytes) == e.sha
  }

  /** A file cannot lie where another one has a directory. */
  predicate Clash(a: string, b: string) {
    a == b || a + "/" <= b || b + "/" <= a
  }

  predicate Unpackable(rel: string -> Option<string>, files: seq<Entry>) {
    forall i, j :: 0 <= i < j < |files| && rel(files[i].path).Some? && rel(files[j].path).Some? ==>
      !Clash(rel(files[i].path).value, rel(files[j].path).value)
  }

  /** Everything the receiver demands of a transfer that carries this manifest. */
  predicate Accepts(h: Canon, rel: string -> Option<string>, members: seq<Member>, m: Manifest) {
    && DistinctNames(members) && |members| <= MAX_FILES + 2
    && Carries(h, members, m)
    && 0 < |m.files| <= MAX_FILES
    && PathsOk(rel, m.files) && SizesOk(m.files)
    && NamesOf(members) == Expected(rel, m.files)
    && (exists e :: e in m.files && e.role == HiddenVerifier)
    && m.stage == h.listing(m.task, m.files)
    && AllMatch(h, rel, members, m.files)
    && Unpackable(rel, m.files)
  }

  function Seen(rel: string -> Option<string>, files: seq<Entry>): set<Option<string>> {
    set e | e in files :: rel(e.path)
  }

  lemma PathsStep(rel: string -> Option<string>, files: seq<Entry>, e: Entry)
    ensures PathsOk(rel, files + [e]) <==> PathsOk(rel, files) && rel(e.path).Some? && rel(e.path) !in Seen(rel, files)
    ensures Seen(rel, files + [e]) == Seen(rel, files) + {rel(e.path)}
  {
    var more := files + [e];
    assert forall i :: 0 <= i < |files| ==> more[i] == files[i];
    if PathsOk(rel, more) {
      forall i | 0 <= i < |files| ensures rel(files[i].path) != rel(e.path) {
        assert more[i] == files[i] && more[|files|] == e;
      }
      assert e in more && forall x :: x in files ==> x in more;
    }
  }

  lemma ExpectedStep(rel: string -> Option<string>, files: seq<Entry>, e: Entry)
    ensures Expected(rel, files + [e]) == Expected(rel, files) + {PayloadName(rel, e)}
  {
  }

  lemma PrefixOk(rel: string -> Option<string>, files: seq<Entry>, n: nat)
    requires n <= |files| && PathsOk(rel, files) && SizesOk(files)
    ensures PathsOk(rel, files[..n]) && SizesOk(files[..n])
  {
    TotalGrows(files, n);
    assert forall e :: e in files[..n] ==> e in files;
  }

  /** The first `i` declared files pass, and these are the members they imply. */
  ghost predicate CheckedUpTo(rel: string -> Option<string>, files: seq<Entry>, i: nat, seen: set<Option<string>>, total: nat, expected: set<string>) {
    && i <= |files|
    && PathsOk(rel, files[..i]) && SizesOk(files[..i])
    && seen == Seen(rel, files[..i]) && total == Total(files[..i]) && expected == Expected(rel, files[..i])
  }

  predicate EntryFails(rel: string -> Option<string>, e: Entry, seen: set<Option<string>>, total: nat) {
    rel(e.path).None? || rel(e.path) in seen || e.size > MAX_FILE_BYTES || total + e.size > MAX_TOTAL_BYTES
  }

  lemma SizesStep(files: seq<Entry>, e: Entry)
    requires SizesOk(files)
    ensures Total(files + [e]) == Total(files) + e.size
    ensures SizesOk(files + [e]) <==> e.size <= MAX_FILE_BYTES && Total(files) + e.size <= MAX_TOTAL_BYTES
  {
    assert (files + [e])[..|files|] == files;
    assert e in files + [e];
  }

  lemma CheckNext(rel: string -> Option<string>, files: seq<Entry>, i: nat, seen: set<Option<string>>, total: nat, expected: set<string>)
    requires i < |files| && CheckedUpTo(rel, files, i, seen, total, expected)
    ensures var e := files[i];
            if EntryFails(rel, e, seen, total) then !(PathsOk(rel, files) && SizesOk(files))
            else CheckedUpTo(rel, files, i + 1, seen + {rel(e.path)}, total + e.size, expected + {PayloadName(rel, e)})
  {
    var e := files[i];
    assert files[..i + 1] == files[..i] + [e];
    PathsStep(rel, files[..i], e);
    ExpectedStep(rel, files[..i], e);
    SizesStep(files[..i], e);
    if PathsOk(rel, files) && SizesOk(files) { PrefixOk(rel, files, i + 1); }
  }

  /** The declared files, one after the other: paths, sizes and the members they imply. */
  method CheckEntries(rel: string -> Option<string>, files: seq<Entry>) returns (r: Result<set<string>, ExtractError>)
    ensures r.Ok? <==> PathsOk(rel, files) && SizesOk(files)
    ensures r.Ok? ==> r.value == Expected(rel, files)
  {
    var expected := {"manifest.json", "manifest.sha256"};
    var seen: set<Option<string>> := {};
    var total: nat, i: nat := 0, 0;
    assert files[..0] == [];
    while i < |files|
      invariant CheckedUpTo(rel, files, i, seen, total, expected)
    {
      var e := files[i];
      CheckNext(rel, files, i, seen, total, expected);
      var relative := rel(e.path);
      if relative.None? { return Err(BadPath); }
      if relative in seen { return Err(RepeatedPath); }
      seen := seen + {relative};
      total := total + e.size;
      if e.size > MAX_FILE_BYTES || total > MAX_TOTAL_BYTES { return Err(FileSize); }
      expected := expected + {PayloadName(rel, e)};
      i := i + 1;
    }
    assert files[..i] == files;
    return Ok(expected);
  }

  lemma {:induction false} TotalGrows(files: seq<Entry>, n: nat)
    requires n <= |files|
    ensures Total(files[..n]) <= Total(files)
    decreases |files|
  {
    if n < |files| {
      TotalGrows(files[..|files| - 1], n);
      assert files[..|files| - 1][..n] == files[..n];
    } else {
      assert files[..n] == files;
    }
  }

  function Located(rel: string -> Option<string>, files: seq<Entry>): set<string> {
    set e | e in files && rel(e.path).Some? :: rel(e.path).value
  }

  lemma UnpackStep(rel: string -> Option<string>, files: seq<Entry>, e: Entry)
    requires rel(e.path).Some?
    ensures Unpackable(rel, files + [e]) <==>
            Unpackable(rel, files) && forall p :: p in Located(rel, files) ==> !Clash(p, rel(e.path).value)
    ensures Located(rel, files + [e]) == Located(rel, files) + {rel(e.path).value}
  {
    var more := files + [e];
    assert forall i :: 0 <= i < |files| ==> more[i] == files[i];
    if Unpackable(rel, more) {
      forall p | p in Located(rel, files) ensures !Clash(p, rel(e.path).value) {
        var x :| x in files && rel(x.path) == Some(p);
        var i :| 0 <= i < |files| && files[i] == x;
        assert more[i] == x && more[|files|] == e;
      }
    }
    if Unpackable(rel, files) && forall p :: p in Located(rel, files) ==> !Clash(p, rel(e.path).value) {
      forall i | 0 <= i < |files| && rel(files[i].path).Some? ensures !Clash(rel(files[i].path).value, rel(e.path).value) {
        assert files[i] in files;
      }
    }
  }

  /** Each listed file lies at its path, with the bytes of its member. */
  predicate Unpacked(rel: string -> Option<string>, members: seq<Member>, files: seq<Entry>, payload: map<string, Bytes>) {
    && payload.Keys == Located(rel, files)
    && forall e :: e in files && rel(e.path).Some? ==>
         Lookup(members, PayloadName(rel, e)) == Some(Data(payload[rel(e.path).value]))
  }

  predicate AllMatch(h: Canon, rel: string -> Option<string>, members: seq<Member>, files: seq<Entry>) {
    forall e :: e in files ==> Matches(h, rel, members, e)
  }

  predicate Free(payload: map<string, Bytes>, path: string) {
    forall p :: p in payload.Keys ==> !Clash(p, path)
  }

  lemma UnpackNext(h: Canon, rel: string -> Option<string>, members: seq<Member>, files: seq<Entry>, i: nat, payload: map<string, Bytes>)
    requires i < |files| && rel(files[i].path).Some?
    requires Unpackable(rel, files[..i]) && Unpacked(rel, members, files[..i], payload)
    ensures Free(payload, rel(files[i].path).value) <==> Unpackable(rel, files[..i + 1])
    ensures Unpackable(rel, files) ==> Unpackable(rel, files[..i + 1])
    ensures Free(payload, rel(files[i].path).value) && Matches(h, rel, members, files[i]) ==>
              Unpacked(rel, members, files[..i + 1],
                       payload[rel(files[i].path).value := Lookup(members, PayloadName(rel, files[i])).value.bytes])
  {
    var e := files[i];
    assert files[..i + 1] == files[..i] + [e];
    UnpackStep(rel, files[..i], e);
    if Free(payload, rel(e.path).value) && Matches(h, rel, members, e) {
    }
  }

  /** The first `i` files match, fit together and have been written. */
  ghost predicate UpTo(h: Canon, rel: string -> Option<string>, members: seq<Member>, files: seq<Entry>, i: nat, payload: map<string, Bytes>) {
    && i <= |files|
    && AllMatch(h, rel, members, files[..i])
    && Unpackable(rel, files[..i])
    && Unpacked(rel, members, files[..i], payload)
  }

  lemma UpToNext(h: Canon, rel: string -> Option<string>, members: seq<Member>, files: seq<Entry>, i: nat, payload: map<string, Bytes>)
    requires i < |files| && rel(files[i].path).Some? && UpTo(h, rel, members, files, i, payload)
    ensures !Matches(h, rel, members, files[i]) ==> !AllMatch(h, rel, members, files)
    ensures !Free(payload, rel(files[i].path).value) ==> !Unpackable(rel, files)
    ensures Matches(h, rel, members, files[i]) && Free(payload, rel(files[i].path).value) ==>
              UpTo(h, rel, members, files, i + 1,
                   payload[rel(files[i].path).value := Lookup(members, PayloadName(rel, files[i])).value.bytes])
  {
    UnpackNext(h, rel, members, files, i, payload);
    assert files[i] in files;
    assert forall e :: e in files[..i + 1] ==> e in files[..i] || e == files[i];
  }

  lemma UpToAll(h: Canon, rel: string -> Option<string>, members: seq<Member>, files: seq<Entry>, payload: map<string, Bytes>)
    requires UpTo(h, rel, members, files, |files|, payload)
    ensures AllMatch(h, rel, members, files) && Unpackable(rel, files) && Unpacked(rel, members, files, payload)
  {
    assert files[..|files|] == files;
  }

  method Unpack(h: Canon, rel: string -> Option<string>, members: seq<Member>, files: seq<Entry>)
    returns (r: Result<map<string, Bytes>, ExtractError>)
    requires forall e :: e in files ==> rel(e.path).Some?
    ensures r.Ok? <==> AllMatch(h, rel, members, files) && Unpackable(rel, files)
    ensures r.Ok? ==> Unpacked(rel, members, files, r.value)
  {
    var payload: map<string, Bytes> := map[];
    var i := 0;
    assert files[..0] == [];
    while i < |files|
      invariant i <= |files| && UpTo(h, rel, members, files, i, payload)
    {
      var e := files[i];
      assert e in files;
      UpToNext(h, rel, members, files, i, payload);
      if !Matches(h, rel, members, e) { return Err(FileDigest); }
      if !Free(payload, rel(e.path).value) { return Err(PathClash); }
      payload := payload[rel(e.path).value := Lookup(members, PayloadName(rel, e)).value.bytes];
      i := i + 1;
    }
    UpToAll(h, rel, members, files, payload);
    return Ok(payload);
  }

  /** The receiver's whole check; it unpacks exactly the transfers it should. */
  method Extract(h: Canon, rel: string -> Option<string>, members: seq<Member>) returns (r: Result<map<string, Bytes>, ExtractError>)
    ensures r.Ok? <==> exists m :: Carries(h, members, m) && Accepts(h, rel, members, m)
    ensures r.Ok? ==> exists m :: Accepts(h, rel, members, m) && Unpacked(rel, members, m.files, r.value)
  {
    if !DistinctNames(members) { return Err(DuplicateMember); }
    if |members| > MAX_FILES + 2 { return Err(TooManyMembers); }
    var raw, bound := Lookup(members, "manifest.json"), Lookup(members, "manifest.sha256");
    if raw.None? || bound.None? || !raw.value.Packed? { return Err(NoManifest); }
    var m := raw.value.manifest;
    assert forall other :: Carries(h, members, other) ==> other == m;
    if h.manifestSize(m) > MAX_MANIFEST_BYTES { return Err(ManifestTooLarge); }
    if bound.value != DigestText(h.manifest(m)) { return Err(ManifestDigest); }
    if |m.files| == 0 || |m.files| > MAX_FILES { return Err(FileList); }
    var expected := CheckEntries(rel, m.files);
    if expected.Err? { return Err(expected.error); }
    if NamesOf(members) != expected.value { return Err(MembersDiffer); }
    if forall e :: e in m.files ==> e.role != HiddenVerifier { return Err(NoHiddenFile); }
    if m.stage != h.listing(m.task, m.files) { return Err(StageDigest); }
    r := Unpack(h, rel, members, m.files);
    assert r.Ok? ==> Accepts(h, rel, members, m);
  }
}
