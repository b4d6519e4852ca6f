// The commands a Swift verifier run may use, checked once by the sender and again by the receiver.

module SwiftCommand {
  import opened Basics

  // -- pure POSIX paths --

  /** Splits at slashes; empty and dot components vanish, as `PurePosixPath.parts` has it. */
  function Parts(s: string): (r: seq<string>)
    ensures forall p :: p in r ==> p != "" && p != "." && '/' !in p
  {
    Keep(Split(s))
  }

  function Split(s: string): (r: seq<string>)
    ensures |r| > 0 && forall p :: p in r ==> '/' !in p
  {
    if s == "" then [""]
    else
      var front, c := Split(s[..|s| - 1]), s[|s| - 1];
      if c == '/' then front + [""] else front[..|front| - 1] + [front[|front| - 1] + [c]]
  }

  function Keep(parts: seq<string>): (r: seq<string>)
    ensures forall p :: p in r <==> p in parts && p != "" && p != "."
  {
    if parts == [] then []
    else if parts[0] == "" || parts[0] == "." then Keep(parts[1..])
    else [parts[0]] + Keep(parts[1..])
  }

  function Slashed(parts: seq<string>): string {
    if parts == [] then "" else if |parts| == 1 then parts[0] else parts[0] + "/" + Slashed(parts[1..])
  }

  /** `as_posix()` of a relative path. */
  function AsPosix(s: string): string {
    if Parts(s) == [] then "." else Slashed(Parts(s))
  }

  predicate Absolute(s: string) {
    s != "" && s[0] == '/'
  }

  /** Windows reads a second character ':' as a drive. */
  predicate HasDrive(s: string) {
    |s| >= 2 && s[1] == ':'
  }

  predicate PlainText(s: string) {
    s != "" && |s| <= 4096 && '\\' !in s && '\0' !in s && '\n' !in s && '\r' !in s
  }

  /** What both sides ask of a relative path. */
  predicate Contained(s: string) {
    PlainText(s) && !Absolute(s) && s != "." && s != ".." && ".." !in Parts(s)
  }

  /** The sender's check: it also refuses what Windows would read as a drive. */
  function LocalRelative(s: string): Option<string> {
    if !PlainText(s) then None
    else if Absolute(s) || HasDrive(s) || s == "." || s == ".." || ".." in Parts(s) || "." in Parts(s) || "" in Parts(s) then None
    else Some(AsPosix(s))
  }

  function RemoteRelative(s: string): Option<string> {
    if !PlainText(s) then None
    else if Absolute(s) || s == "." || s == ".." || ".." in Parts(s) then None
    else if "" in Parts(s) || "." in Parts(s) then None
    else Some(AsPosix(s))
  }

  lemma RelativesAgree(s: string)
    ensures LocalRelative(s) == if HasDrive(s) then None else RemoteRelative(s)
    ensures RemoteRelative(s) == if Contained(s) then Some(AsPosix(s)) else None
  {
  }

  // -- commands --

  datatype Mode = PackageTest | PackageBuild | XcodeBuild | Typecheck

  const FLAGS: set<string> :=
    {"--parallel", "--no-parallel", "--enable-code-coverage", "--disable-code-coverage", "--verbose", "-v"}

  const PAIRS: set<string> := {"--configuration", "--filter", "--skip", "--package-path"}

  const SDKS: set<string> :=
    {"appletvos", "appletvsimulator", "driverkit", "iphoneos", "iphonesimulator", "macosx",
     "watchos", "watchsimulator", "xros", "xrsimulator"}

  const XCODE_TAIL: seq<string> :=
    ["-derivedDataPath", ".ci-derived-data", "-quiet", "CODE_SIGNING_ALLOWED=NO", "CODE_SIGNING_REQUIRED=NO", "build"]

  predicate Has(s: string, part: string) {
    exists i :: 0 <= i <= |s| && HasAt(s, part, i)
  }

  predicate HasAt(s: string, part: string, i: nat) {
    i + |part| <= |s| && s[i..i + |part|] == part
  }

  predicate EndsIn(s: string, part: string) {
    |part| <= |s| && s[|s| - |part|..] == part
  }

  predicate Bounded(argument: string) {
    '/' !in argument && '\\' !in argument && !Has(argument, "..")
  }

  /** A flag with its argument; a build takes no test filter. */
  predicate PairOk(build: bool, item: string, argument: string) {
    && item in PAIRS
    && (item == "--configuration" ==> argument == "debug" || argument == "release")
    && (item == "--package-path" ==> argument == ".")
    && (item == "--filter" || item == "--skip" ==> Bounded(argument) && !build)
  }

  /** The arguments after `swift test` or `swift build`, read left to right. */
  predicate PackageArguments(build: bool, rest: seq<string>) {
    if rest == [] then true
    else if rest[0] in FLAGS then PackageArguments(build, rest[1..])
    else |rest| >= 2 && PairOk(build, rest[0], rest[1]) && PackageArguments(build, rest[2..])
  }

  // -- the same arguments, cut into flags and pairs --

  datatype Item = Flag(text: string) | Pair(name: string, argument: string)

  function Spelled(items: seq<Item>): (r: seq<string>) {
    if items == [] then []
    else (match items[0] case Flag(text) => [text] case Pair(name, argument) => [name, argument]) + Spelled(items[1..])
  }

  /** Flags without arguments; a configuration, the package in the current directory, and for tests only a
      filter that is no path. */
  predicate ItemFits(build: bool, item: Item) {
    match item
    case Flag(text) =>
      || text == "--parallel" || text == "--no-parallel" || text == "--enable-code-coverage" || text == "--disable-code-coverage"
      || text == "--verbose" || text == "-v"
    case Pair(name, argument) =>
      || (name == "--configuration" && (argument == "debug" || argument == "release"))
      || (name == "--package-path" && argument == ".")
      || ((name == "--filter" || name == "--skip") && !build && '/' !in argument && '\\' !in argument && !Has(argument, ".."))
  }

  ghost predicate CutInto(build: bool, rest: seq<string>, items: seq<Item>) {
    rest == Spelled(items) && forall i :: 0 <= i < |items| ==> ItemFits(build, items[i])
  }

  lemma ItemsMean(build: bool, text: string, argument: string)
    ensures text in FLAGS <==> ItemFits(build, Flag(text))
    ensures text !in FLAGS && PairOk(build, text, argument) <==> ItemFits(build, Pair(text, argument))
  {
  }

  lemma {:induction false} ArgumentsAreCut(build: bool, rest: seq<string>) returns (items: seq<Item>)
    requires PackageArguments(build, rest)
    ensures CutInto(build, rest, items)
  {
    if rest == [] {
      items := [];
    } else if rest[0] in FLAGS {
      ItemsMean(build, rest[0], "");
      var more := ArgumentsAreCut(build, rest[1..]);
      items := [Flag(rest[0])] + more;
      assert rest == [rest[0]] + rest[1..];
    } else {
      ItemsMean(build, rest[0], rest[1]);
      var more := ArgumentsAreCut(build, rest[2..]);
      items := [Pair(rest[0], rest[1])] + more;
      assert rest == [rest[0], rest[1]] + rest[2..];
    }
  }

  lemma {:induction false} CutIsAccepted(build: bool, rest: seq<string>, items: seq<Item>)
    requires CutInto(build, rest, items)
    ensures PackageArguments(build, rest)
    decreases |items|
  {
    if items != [] {
      assert ItemFits(build, items[0]);
      CutIsAccepted(build, Spelled(items[1..]), items[1..]);
      match items[0]
      case Flag(text) =>
        ItemsMean(build, text, "");
        assert rest[1..] == Spelled(items[1..]);
      case Pair(name, argument) =>
        ItemsMean(build, name, argument);
        assert rest[2..] == Spelled(items[1..]);
    }
  }

  /** Both loops accept exactly the arguments that can be cut into fitting flags and pairs. */
  lemma PackageArgumentsIff(build: bool, rest: seq<string>)
    ensures PackageArguments(build, rest) <==> exists items :: CutInto(build, rest, items)
  {
    if PackageArguments(build, rest) { var items := ArgumentsAreCut(build, rest); }
    if items :| CutInto(build, rest, items) { CutIsAccepted(build, rest, items); }
  }

  /** The sender's loop. */
  method LocalPackage(value: seq<string>) returns (ok: bool)
    requires |value| >= 2
    ensures ok <==> PackageArguments(value[1] == "build", value[2..])
  {
    var index := 2;
    while index < |value|
      invariant 2 <= index <= |value|
      invariant PackageArguments(value[1] == "build", value[2..]) <==> PackageArguments(value[1] == "build", value[index..])
    {
      var item := value[index];
      if item in FLAGS {
        assert value[index..][1..] == value[index + 1..];
        index := index + 1;
        continue;
      }
      if item !in PAIRS || index + 1 >= |value| { return false; }
      var argument := value[index + 1];
      assert value[index..][0] == item && value[index..][1] == argument && value[index..][2..] == value[index + 2..];
      if item == "--configuration" && argument != "debug" && argument != "release" { return false; }
      if item == "--package-path" && argument != "." { return false; }
      if (item == "--filter" || item == "--skip") && ('/' in argument || '\\' in argument || Has(argument, "..")) { return false; }
      if value[1] == "build" && (item == "--filter" || item == "--skip") { return false; }
      index := index + 2;
    }
    return true;
  }

  /** The receiver's loop. */
  method RemotePackage(value: seq<string>) returns (ok: bool)
    requires |value| >= 2
    ensures ok <==> PackageArguments(value[1] == "build", value[2..])
  {
    var index := 2;
    while index < |value|
      invariant 2 <= index <= |value|
      invariant PackageArguments(value[1] == "build", value[2..]) <==> PackageArguments(value[1] == "build", value[index..])
    {
      var item := value[index];
      if item in FLAGS {
        assert value[index..][1..] == value[index + 1..];
        index := index + 1;
        continue;
      }
      if item !in PAIRS || index + 1 >= |value| { return false; }
      var argument := value[index + 1];
      assert value[index..][0] == item && value[index..][1] == argument && value[index..][2..] == value[index + 2..];
      if item == "--configuration" && argument != "debug" && argument != "release" { return false; }
      if item == "--package-path" && argument != "." { return false; }
      if (item == "--filter" || item == "--skip") && (value[1] == "build" || !Bounded(argument)) { return false; }
      index := index + 2;
    }
    return true;
  }

  // -- the three modes --

  /** Bytes of a character in UTF-8. */
  function Width(c: char): nat {
    if c as int < 0x80 then 1 else if c as int < 0x800 then 2 else if c as int < 0x10000 then 3 else 4
  }

  function Utf8(s: string): (n: nat)
    ensures n >= |s|
  {
    if s == "" then 0 else Utf8(s[..|s| - 1]) + Width(s[|s| - 1])
  }

  /** Each argument and a separator. */
  function ArgvBytes(value: seq<string>): (n: nat) {
    if value == [] then 0 else ArgvBytes(value[..|value| - 1]) + Utf8(value[|value| - 1]) + 1
  }

  predicate ArgvBounded(value: seq<string>) {
    && 2 <= |value| <= 260
    && (forall a :: a in value ==> a != "" && |a| <= 4096 && '\0' !in a && '\n' !in a && '\r' !in a)
    && ArgvBytes(value) <= 64 * 1024
  }

  predicate SchemeChar(c: char) {
    'A' <= c <= 'Z' || 'a' <= c <= 'z' || '0' <= c <= '9'
  }

  predicate SchemeOk(s: string) {
    && 1 <= |s| <= 128
    && SchemeChar(s[0])
    && forall i :: 1 <= i < |s| ==> SchemeChar(s[i]) || s[i] in {' ', '.', '_', '-'}
  }

  /** The grammar of an Xcode build. */
  predicate XcodeOk(value: seq<string>, relative: string -> Option<string>) {
    && |value| == 13 && value[1] in {"-workspace", "-project"} && value[3] == "-scheme" && value[5] == "-sdk"
    && value[7..13] == XCODE_TAIL
    && relative(value[2]).Some?
    && |Parts(relative(value[2]).value)| == 1
    && EndsIn(relative(value[2]).value, if value[1] == "-workspace" then ".xcworkspace" else ".xcodeproj")
    && SchemeOk(value[4]) && value[6] in SDKS
  }

  predicate Precedes(a: string, b: string) {
    if a == "" then b != "" else b != "" && (a[0] < b[0] || (a[0] == b[0] && Precedes(a[1..], b[1..])))
  }

  predicate SwiftSource(s: string) {
    var parts := Parts(s);
    EndsIn(s, ".swift") && (parts != [] ==> !("-" <= parts[|parts| - 1]))
  }

  function Normal(files: seq<string>, relative: string -> Option<string>): (r: seq<string>)
    requires forall f :: f in files ==> relative(f).Some?
  {
    seq(|files|, i requires 0 <= i < |files| => relative(files[i]).value)
  }

  /** The grammar of a type check: strictly ascending source files. */
  predicate TypecheckOk(files: seq<string>, relative: string -> Option<string>) {
    && 1 <= |files| <= 128
    && (forall f :: f in files ==> relative(f).Some?)
    && var normal := Normal(files, relative);
    && Ascending(normal)
    && ArgvBytes(normal) <= 32 * 1024
    && (forall f :: f in normal ==> SwiftSource(f))
  }

  /** The mode that the first arguments select. */
  function ModeOf(value: seq<string>): (mode: Option<Mode>)
    requires |value| >= 2
    ensures mode == Some(PackageTest) || mode == Some(PackageBuild) ==> (mode == Some(PackageBuild) <==> value[1] == "build")
  {
    if value[..2] == ["swift", "test"] then assert value[1] == value[..2][1]; Some(PackageTest)
    else if value[..2] == ["swift", "build"] then assert value[1] == value[..2][1]; Some(PackageBuild)
    else if value[0] == "xcodebuild" then Some(XcodeBuild)
    else if |value| >= 3 && value[..3] == ["xcrun", "swiftc", "-typecheck"] then Some(Typecheck)
    else None
  }

  predicate ArgumentsOk(mode: Mode, value: seq<string>, relative: string -> Option<string>)
    requires |value| >= 2
  {
    match mode
    case PackageTest => PackageArguments(false, value[2..])
    case PackageBuild => PackageArguments(true, value[2..])
    case XcodeBuild => XcodeOk(value, relative)
    case Typecheck => |value| >= 3 && TypecheckOk(value[3..], relative)
  }

  /** The mode a command is accepted in, given how its paths are checked. */
  function CommandMode(value: seq<string>, relative: string -> Option<string>): Option<Mode> {
    if !ArgvBounded(value) then None
    else
      var mode := ModeOf(value);
      if mode.Some? && ArgumentsOk(mode.value, value, relative) then mode else None
  }

  /** No file sorts before the one in front of it: sorting would change nothing. */
  predicate Ordered(files: seq<string>) {
    forall i :: 0 <= i < |files| - 1 ==> !Precedes(files[i + 1], files[i])
  }

  predicate Ascending(files: seq<string>) {
    forall i :: 0 <= i < |files| - 1 ==> Precedes(files[i], files[i + 1])
  }

  function Distinct(files: seq<string>): (r: set<string>)
    ensures forall f :: f in r <==> f in files
  {
    set f | f in files
  }

  lemma {:induction false} PrecedesIsTotal(a: string, b: string)
    ensures Precedes(a, b) ==> !Precedes(b, a) && a != b
    ensures a == b || Precedes(a, b) || Precedes(b, a)
  {
    if a != "" && b != "" {
      PrecedesIsTotal(a[1..], b[1..]);
      assert a == [a[0]] + a[1..] && b == [b[0]] + b[1..];
    }
  }

  lemma {:induction false} PrecedesChains(a: string, b: string, c: string)
    requires Precedes(a, b) && Precedes(b, c)
    ensures Precedes(a, c)
  {
    if a != "" && a[0] == b[0] == c[0] { PrecedesChains(a[1..], b[1..], c[1..]); }
  }

  lemma {:induction false} LastIsGreatest(files: seq<string>, i: nat)
    requires Ascending(files) && i < |files| - 1
    ensures Precedes(files[i], files[|files| - 1])
  {
    assert Precedes(files[|files| - 2], files[|files| - 1]);
    if i < |files| - 2 {
      LastIsGreatest(files[..|files| - 1], i);
      PrecedesChains(files[i], files[|files| - 2], files[|files| - 1]);
    }
  }

  lemma SplitLast(files: seq<string>)
    requires files != []
    ensures var front, last := files[..|files| - 1], files[|files| - 1];
            Distinct(files) == Distinct(front) + {last}
  {
    assert files == files[..|files| - 1] + [files[|files| - 1]];
  }

  lemma {:induction false} AtMostDistinct(files: seq<string>)
    ensures |Distinct(files)| <= |files|
  {
    if files != [] {
      SplitLast(files);
      AtMostDistinct(files[..|files| - 1]);
    }
  }

  lemma {:induction false} AscendingIsDistinct(files: seq<string>)
    requires Ascending(files)
    ensures |Distinct(files)| == |files|
  {
    if files != [] {
      var front, last := files[..|files| - 1], files[|files| - 1];
      AscendingIsDistinct(front);
      SplitLast(files);
      forall f | f in front ensures f != last {
        var i :| 0 <= i < |front| && front[i] == f;
        LastIsGreatest(files, i);
        PrecedesIsTotal(f, last);
      }
    }
  }

  lemma {:induction false} RepeatedIsFewer(files: seq<string>, i: nat)
    requires i + 1 < |files| && files[i] == files[i + 1]
    ensures |Distinct(files)| < |files|
  {
    var front := files[..|files| - 1];
    SplitLast(files);
    AtMostDistinct(front);
    if i + 1 < |front| {
      RepeatedIsFewer(front, i);
    } else {
      assert front[i] == files[|files| - 1];
      assert Distinct(files) == Distinct(front);
    }
  }

  /** What the test for order and the test for duplicates amount to. */
  lemma OrderedAndDistinct(files: seq<string>)
    ensures Ordered(files) && |Distinct(files)| == |files| <==> Ascending(files)
  {
    forall i | 0 <= i < |files| - 1
      ensures Precedes(files[i], files[i + 1]) <==> !Precedes(files[i + 1], files[i]) && files[i] != files[i + 1]
      ensures files[i] == files[i + 1] ==> |Distinct(files)| < |files|
    {
      PrecedesIsTotal(files[i], files[i + 1]);
      if files[i] == files[i + 1] { RepeatedIsFewer(files, i); }
    }
    if Ascending(files) { AscendingIsDistinct(files); }
  }

  /** The sender's checks of an Xcode build. */
  method LocalXcode(value: seq<string>) returns (ok: bool)
    ensures ok <==> XcodeOk(value, LocalRelative)
  {
    if |value| != 13 || value[1] !in {"-workspace", "-project"} || value[3] != "-scheme" || value[5] != "-sdk"
       || value[7..13] != XCODE_TAIL { return false; }
    var container := LocalRelative(value[2]);
    if container.None? { return false; }
    var suffix := if value[1] == "-workspace" then ".xcworkspace" else ".xcodeproj";
    if |Parts(container.value)| != 1 || !EndsIn(container.value, suffix) { return false; }
    if !SchemeOk(value[4]) { return false; }
    return value[6] in SDKS;
  }

  /** The receiver's checks of an Xcode build. */
  method RemoteXcode(value: seq<string>) returns (ok: bool)
    requires value != [] && value[0] == "xcodebuild"
    ensures ok <==> XcodeOk(value, RemoteRelative)
  {
    if |value| != 13 || value[0] != "xcodebuild" || value[1] !in {"-workspace", "-project"}
       || value[3] != "-scheme" || value[5] != "-sdk" || value[7..13] != XCODE_TAIL { return false; }
    var container := RemoteRelative(value[2]);
    if container.None? { return false; }
    var suffix := if value[1] == "-workspace" then ".xcworkspace" else ".xcodeproj";
    if |Parts(container.value)| != 1 || !EndsIn(container.value, suffix) { return false; }
    return SchemeOk(value[4]) && value[6] in SDKS;
  }

  /** Normalizes every path, or stops at the first that is refused. */
  method NormalPaths(files: seq<string>, relative: string -> Option<string>) returns (normal: Option<seq<string>>)
    ensures normal.Some? <==> forall f :: f in files ==> relative(f).Some?
    ensures normal.Some? ==> normal.value == Normal(files, relative)
  {
    var paths: seq<string> := [];
    for n := 0 to |files|
      invariant |paths| == n && forall i :: 0 <= i < n ==> relative(files[i]) == Some(paths[i])
    {
      var path := relative(files[n]);
      if path.None? { assert files[n] in files; return None; }
      paths := paths + [path.value];
    }
    return Some(paths);
  }

  /** The sender's checks of a type check. */
  method LocalTypecheck(value: seq<string>) returns (ok: bool)
    requires |value| >= 3
    ensures ok <==> TypecheckOk(value[3..], LocalRelative)
  {
    var files := NormalPaths(value[3..], LocalRelative);
    if files.None? { return false; }
    OrderedAndDistinct(files.value);
    if files.value == [] || |files.value| > 128 || !Ordered(files.value)
       || |files.value| != |Distinct(files.value)| || ArgvBytes(files.value) > 32 * 1024 { return false; }
    if exists f :: f in files.value && !SwiftSource(f) { return false; }
    return true;
  }

  /** The receiver's checks of a type check. */
  method RemoteTypecheck(value: seq<string>) returns (ok: bool)
    requires |value| >= 3 && value[..3] == ["xcrun", "swiftc", "-typecheck"]
    ensures ok <==> TypecheckOk(value[3..], RemoteRelative)
  {
    if value[..3] != ["xcrun", "swiftc", "-typecheck"] { return false; }
    var files := NormalPaths(value[3..], RemoteRelative);
    if files.None? { return false; }
    OrderedAndDistinct(files.value);
    if files.value == [] || |files.value| > 128 || !Ordered(files.value)
       || |files.value| != |Distinct(files.value)| || ArgvBytes(files.value) > 32 * 1024
       || exists f :: f in files.value && !SwiftSource(f) { return false; }
    return true;
  }

  lemma ModeShape(value: seq<string>)
    requires |value| >= 2
    ensures ModeOf(value) == Some(XcodeBuild) ==> value[0] == "xcodebuild"
    ensures ModeOf(value) == Some(Typecheck) ==> |value| >= 3 && value[..3] == ["xcrun", "swiftc", "-typecheck"]
    ensures ModeOf(value) == Some(PackageTest) ==> value[1] != "build"
    ensures ModeOf(value) == Some(PackageBuild) ==> value[1] == "build"
  {
  }

  method LocalArguments(mode: Mode, value: seq<string>) returns (ok: bool)
    requires |value| >= 2 && ModeOf(value) == Some(mode)
    ensures ok <==> ArgumentsOk(mode, value, LocalRelative)
  {
    ModeShape(value);
    match mode {
      case XcodeBuild => ok := LocalXcode(value);
      case Typecheck => ok := LocalTypecheck(value);
      case PackageTest => ok := LocalPackage(value);
      case PackageBuild => ok := LocalPackage(value);
    }
  }

  method RemoteArguments(mode: Mode, value: seq<string>) returns (ok: bool)
    requires |value| >= 2 && ModeOf(value) == Some(mode)
    ensures ok <==> ArgumentsOk(mode, value, RemoteRelative)
  {
    ModeShape(value);
    match mode {
      case XcodeBuild => ok := RemoteXcode(value);
      case Typecheck => ok := RemoteTypecheck(value);
      case PackageTest => ok := RemotePackage(value);
      case PackageBuild => ok := RemotePackage(value);
    }
  }

  method LocalCommand(value: seq<string>) returns (mode: Option<Mode>)
    ensures mode == CommandMode(value, LocalRelative)
  {
    if !ArgvBounded(value) { return None; }
    mode := ModeOf(value);
    if mode.None? { return; }
    var ok := LocalArguments(mode.value, value);
    return if ok then mode else None;
  }

  method RemoteCommand(value: seq<string>) returns (mode: Option<Mode>)
    ensures mode == CommandMode(value, RemoteRelative)
  {
    if !ArgvBounded(value) { return None; }
    mode := ModeOf(value);
    if mode.None? { return; }
    var ok := RemoteArguments(mode.value, value);
    return if ok then mode else None;
  }

  /** A path argument that Windows would read as starting with a drive. */
  predicate NamesDrive(value: seq<string>) {
    |value| >= 2 &&
    match ModeOf(value)
    case Some(XcodeBuild) => |value| > 2 && HasDrive(value[2])
    case Some(Typecheck) => |value| >= 3 && exists f :: f in value[3..] && HasDrive(f)
    case _ => false
  }

  lemma TypecheckAgrees(files: seq<string>)
    ensures TypecheckOk(files, LocalRelative) <==>
            TypecheckOk(files, RemoteRelative) && forall f :: f in files ==> !HasDrive(f)
  {
    forall f | f in files ensures LocalRelative(f) == if HasDrive(f) then None else RemoteRelative(f) { RelativesAgree(f); }
    if (forall f :: f in files ==> RemoteRelative(f).Some?) && forall f :: f in files ==> !HasDrive(f) {
      assert Normal(files, LocalRelative) == Normal(files, RemoteRelative);
    }
  }

  lemma ArgumentsAgree(mode: Mode, value: seq<string>)
    requires |value| >= 2 && ModeOf(value) == Some(mode)
    ensures ArgumentsOk(mode, value, LocalRelative) <==> ArgumentsOk(mode, value, RemoteRelative) && !NamesDrive(value)
  {
    match mode
    case XcodeBuild => 
    case Typecheck => if |value| >= 3 { TypecheckAgrees(value[3..]); }
    case _ =>
  }

  /** The sender accepts exactly what the receiver accepts without drives, and in the same mode: a command
      that is sent is never refused or run differently on arrival. */
  lemma SenderMatchesReceiver(value: seq<string>)
    ensures CommandMode(value, LocalRelative) == if NamesDrive(value) then None else CommandMode(value, RemoteRelative)
  {
    if |value| >= 2 && ModeOf(value).Some? { ArgumentsAgree(ModeOf(value).value, value); }
  }
}
